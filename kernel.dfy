/** The host framework's request and response, reduced to what the listeners look at. */
module Kernel {
  import opened Wrappers
  import opened Calls

  /** A main request comes from the client; a sub-request is dispatched internally, for
      instance to render a fragment. */
  datatype RequestType = MainRequest | SubRequest

  /** `route` is the `_route` attribute, absent when no route matched; `path` is the path
      info; `instrument` is the optional `_instrument` attribute. */
  datatype Request = Request(kind: RequestType, route: Option<string>, path: string, instrument: Option<bool>)

  /** A response whose body the listener may rewrite. Reading and writing the body are
      calls on the response and are recorded. */
  class Response {
    const recorder: Recorder
    const contentType: string
    var content: string

    constructor (recorder: Recorder, contentType: string, content: string)
      ensures this.recorder == recorder && this.contentType == contentType && this.content == content
    {
      this.recorder := recorder;
      this.contentType := contentType;
      this.content := content;
    }

    method GetContent() returns (body: string)
      modifies recorder
      ensures body == content
      ensures recorder.log == old(recorder.log) + [Call.GetContent]
    {
      recorder.Record(Call.GetContent);
      body := content;
    }

    method SetContent(body: string)
      modifies this, recorder
      ensures content == body
      ensures recorder.log == old(recorder.log) + [Call.SetContent(body)]
    {
      recorder.Record(Call.SetContent(body));
      content := body;
    }
  }
}
