/** Stand-ins for the parts of net/url and net/http that the client touches. */
module Http {
  import opened Wrappers
  import opened Types

  /** Query parameters (`url.Values`): each key holds a list of values. */
  type Values = map<string, seq<string>>

  /** Request headers (`http.Header`): each key holds a list of values. */
  type Header = map<string, seq<string>>

  /** The parts of a `url.URL` the client sets. */
  datatype Url = Url(scheme: string, host: string, path: string, rawQuery: string)

  /** What is handed to the transport: a snapshot of an `HttpRequest`. */
  datatype Transmitted = Transmitted(httpMethod: string, url: Url, header: Header, body: Option<seq<byte>>)

  /** The outgoing `http.Request`, which is prepared in place: headers, then body. */
  class HttpRequest {
    var httpMethod: string
    var url: Url
    var header: Header
    var body: Option<seq<byte>>

    constructor (httpMethod: string, url: Url)
      ensures this.httpMethod == httpMethod && this.url == url
      ensures header == map[] && body == None
    {
      this.httpMethod := httpMethod;
      this.url := url;
      header := map[];
      body := None;
    }

    function Snapshot(): (t: Transmitted)
      reads this
    {
      Transmitted(httpMethod, url, header, body)
    }
  }
}
