/** The HTTP service: the status endpoint, the edit endpoint and the route
    table that dispatches to them. */
module Service {
  import opened Wrappers
  import File
  import Editor

  const StatusPath := "/status"
  const RootPath := "/"
  const TextPlain := "text/plain"

  const StatusOK := 200
  const StatusInternalServerError := 500

  /** The service holds the editor it delegates to. */
  datatype Service = Service(ed: Editor.Interface)

  /** An incoming request: method, path and body. */
  datatype Request = Request(verb: string, path: string, body: File.Bytes)

  /** An outgoing response. `contentType` is `None` where the handler leaves
      it to the HTTP library. */
  datatype Response = Response(status: int, contentType: Option<string>, body: File.Bytes)

  /** A call the edit handler makes on the editor or on the file it returned. */
  datatype Call =
    | EditCall(payload: File.Bytes)
    | ReadCall(file: string)
    | RemoveCall(file: string)

  /** Some call in `calls` removes a file. */
  predicate Removes(calls: seq<Call>)
  {
    exists i :: 0 <= i < |calls| && calls[i].RemoveCall?
  }

  /** A handled request: the response and the calls made, in order. */
  datatype Exchange = Exchange(response: Response, calls: seq<Call>)

  /** `s` occurs somewhere inside `t`. */
  predicate Contains(t: string, s: string)
  {
    exists i :: 0 <= i <= |t| && StartsWith(t[i..], s)
  }

  /** `t` begins with `s`. */
  predicate StartsWith(t: string, s: string)
  {
    |s| <= |t| && t[..|s|] == s
  }

  /** `status`: reports the editor command and the temporary directory. */
  function Status(s: Service): (r: Response)
    ensures r.status == StatusOK && r.contentType == Some(TextPlain)
    ensures r.body == "editor='" + s.ed.command + "', tmpDir='" + s.ed.tmpDir + "'"
    ensures Contains(r.body, s.ed.command) && Contains(r.body, s.ed.tmpDir)
  {
    var body := "editor='" + s.ed.command + "', tmpDir='" + s.ed.tmpDir + "'";
    var head := "editor='" + s.ed.command + "', tmpDir='";
    assert StartsWith(body[8..], s.ed.command);
    assert body[|head|..] == s.ed.tmpDir + "'";
    assert StartsWith(body[|head|..], s.ed.tmpDir);
    Response(StatusOK, Some(TextPlain), body)
  }

  /** `edit`: hands the request body to the editor, reads the edited file and
      answers with its bytes. An editor or read error is answered with 500
      and the error's text, and the file is then not removed. After a
      successful read the file is removed once; the outcome of the removal
      does not change the response. */
  function Edit(s: Service, body: File.Bytes): (x: Exchange)
    ensures |x.calls| >= 1 && x.calls[0] == EditCall(body)
    ensures s.ed.edit(body).Failure? ==>
      x == Exchange(Response(StatusInternalServerError, None, s.ed.edit(body).error), [EditCall(body)])
    ensures s.ed.edit(body).Success? && s.ed.edit(body).value.read.Failure? ==>
      var f := s.ed.edit(body).value;
      x == Exchange(Response(StatusInternalServerError, None, f.read.error), [EditCall(body), ReadCall(f.name)])
    ensures s.ed.edit(body).Success? && s.ed.edit(body).value.read.Success? ==>
      var f := s.ed.edit(body).value;
      x == Exchange(Response(StatusOK, None, f.read.value), [EditCall(body), ReadCall(f.name), RemoveCall(f.name)])
    ensures x.response.status == StatusOK <==> Removes(x.calls)
  {
    match s.ed.edit(body)
    case Failure(err) =>
      Exchange(Response(StatusInternalServerError, None, err), [EditCall(body)])
    case Success(f) =>
      match f.read
      case Failure(err) =>
        Exchange(Response(StatusInternalServerError, None, err), [EditCall(body), ReadCall(f.name)])
      case Success(payload) =>
        // the deferred removal runs whatever its outcome; a failure is only logged
        var calls := [EditCall(body), ReadCall(f.name), RemoveCall(f.name)];
        assert calls[2].RemoveCall?;
        Exchange(Response(StatusOK, None, payload), calls)
  }

  /** The handler a route leads to. */
  datatype Endpoint = StatusEndpoint | EditEndpoint

  /** One entry of the route table: an exact method and path. */
  datatype Route = Route(verb: string, path: string, endpoint: Endpoint)

  /** `RequestHandler`: the routes the router is built from. */
  function RequestHandler(): seq<Route>
  {
    [Route("GET", StatusPath, StatusEndpoint), Route("POST", RootPath, EditEndpoint)]
  }

  /** The route matches the method and path exactly. */
  predicate Matches(route: Route, verb: string, path: string)
  {
    route.verb == verb && route.path == path
  }

  /** The endpoint of the first route whose method and path match exactly.
      `None` leaves the request to the router's own default answers. */
  function Lookup(routes: seq<Route>, verb: string, path: string): (r: Option<Endpoint>)
    ensures r.Some? <==> exists i :: 0 <= i < |routes| && Matches(routes[i], verb, path)
    ensures r.Some? ==>
      exists i :: 0 <= i < |routes| && routes[i] == Route(verb, path, r.value)
        && forall j :: 0 <= j < i ==> !Matches(routes[j], verb, path)
  {
    if routes == [] then None
    else if Matches(routes[0], verb, path) then Some(routes[0].endpoint)
    else Lookup(routes[1..], verb, path)
  }

  /** GET /status reaches the status handler and POST / the edit handler;
      no other method and path reaches either. */
  lemma RouteTable(verb: string, path: string)
    ensures Lookup(RequestHandler(), verb, path) == Some(StatusEndpoint) <==> verb == "GET" && path == StatusPath
    ensures Lookup(RequestHandler(), verb, path) == Some(EditEndpoint) <==> verb == "POST" && path == RootPath
  {
  }

  /** The router with the service's two handlers behind it. */
  function Serve(s: Service, req: Request): (r: Option<Exchange>)
    ensures r.Some? <==> (req.verb == "GET" && req.path == StatusPath) || (req.verb == "POST" && req.path == RootPath)
    ensures req.verb == "GET" && req.path == StatusPath ==> r == Some(Exchange(Status(s), []))
    ensures req.verb == "POST" && req.path == RootPath ==> r == Some(Edit(s, req.body))
  {
    RouteTable(req.verb, req.path);
    match Lookup(RequestHandler(), req.verb, req.path)
    case None => None
    case Some(StatusEndpoint) => Some(Exchange(Status(s), []))
    case Some(EditEndpoint) => Some(Edit(s, req.body))
  }

  /** Two editors that hand back files with the same name and contents give
      the same exchange, whatever removing those files would report. */
  lemma RemoveOutcomeInvisible(s1: Service, s2: Service, body: File.Bytes)
    requires s1.ed.edit(body).Success? && s2.ed.edit(body).Success?
    requires s1.ed.edit(body).value.name == s2.ed.edit(body).value.name
    requires s1.ed.edit(body).value.read == s2.ed.edit(body).value.read
    ensures Edit(s1, body) == Edit(s2, body)
  {
  }

  /** With an editor that ignores its input and yields fixed bytes `q`, a
      POST to the root answers 200 with `q`, whatever the request body. */
  lemma FakeEditorAnswersFixedPayload(q: File.Bytes, body: File.Bytes)
    ensures Serve(Service(Editor.NewFakeEditor(q)), Request("POST", RootPath, body))
      == Some(Exchange(Response(StatusOK, None, q), [EditCall(body), ReadCall("fake"), RemoveCall("fake")]))
  {
  }

  /** The expectations of the service's unit test, for its fake editor. */
  lemma ServiceTestExpectations()
    ensures var s := Service(Editor.NewFakeEditor("edited payload"));
      var status := Serve(s, Request("GET", StatusPath, ""));
      var edit := Serve(s, Request("POST", RootPath, "payload"));
      && status.Some? && status.value.response.status == StatusOK
      && Contains(status.value.response.body, "fake-editor")
      && edit.Some? && edit.value.response.status == StatusOK
      && edit.value.response.body == "edited payload"
  {
  }

  /** For the real editor, the status body shows the configured command line
      exactly as informed, spaces and all, and the temporary directory. */
  lemma StatusShowsConfiguredEditor(command: string, tmpDir: string, fs: File.Fs, run: Editor.Runner)
    ensures Status(Service(Editor.AsInterface(Editor.NewEditor(command, tmpDir), fs, run))).body
      == "editor='" + command + "', tmpDir='" + tmpDir + "'"
  {
  }

  /** A failing editor command is answered with 500 and the command's error.
      The temporary file it ran on was created but is neither read nor removed. */
  lemma CommandFailureLeavesTempFile(command: string, tmpDir: string, body: File.Bytes, fs: File.Fs, run: Editor.Runner, name: string, err: Error)
    requires fs.createTemp(tmpDir, body) == Success(name)
    requires var script := Editor.Script(Editor.NewEditor(command, tmpDir), name);
      run(script[0], script[1..]) == Fail(err)
    ensures var e := Editor.NewEditor(command, tmpDir);
      Edit(Service(Editor.AsInterface(e, fs, run)), body)
        == Exchange(Response(StatusInternalServerError, None, err), [EditCall(body)])
    ensures var e := Editor.NewEditor(command, tmpDir);
      var script := Editor.Script(e, name);
      Editor.Edit(e, body, fs, run).effects
        == [Editor.CreateTemp(tmpDir, body), Editor.Run(script[0], script[1..])]
  {
  }

  /** A file that cannot be read back is answered with 500 and the read error,
      and is not removed. */
  lemma ReadFailureLeavesTempFile(command: string, tmpDir: string, body: File.Bytes, fs: File.Fs, run: Editor.Runner, name: string, err: Error)
    requires fs.createTemp(tmpDir, body) == Success(name)
    requires var script := Editor.Script(Editor.NewEditor(command, tmpDir), name);
      run(script[0], script[1..]) == Pass
    requires fs.readFile(name) == Failure(err)
    ensures var e := Editor.NewEditor(command, tmpDir);
      Edit(Service(Editor.AsInterface(e, fs, run)), body)
        == Exchange(Response(StatusInternalServerError, None, err), [EditCall(body), ReadCall(name)])
  {
  }

  /** When the file is created, the command succeeds and the file reads back
      as `edited`, the answer is 200 with `edited`, and the file the command
      ran on is the one read and then removed. */
  lemma EditRoundTrip(command: string, tmpDir: string, body: File.Bytes, fs: File.Fs, run: Editor.Runner, name: string, edited: File.Bytes)
    requires fs.createTemp(tmpDir, body) == Success(name)
    requires var script := Editor.Script(Editor.NewEditor(command, tmpDir), name);
      run(script[0], script[1..]) == Pass
    requires fs.readFile(name) == Success(edited)
    ensures var e := Editor.NewEditor(command, tmpDir);
      Edit(Service(Editor.AsInterface(e, fs, run)), body)
        == Exchange(Response(StatusOK, None, edited), [EditCall(body), ReadCall(name), RemoveCall(name)])
    ensures var e := Editor.NewEditor(command, tmpDir);
      Editor.Edit(e, body, fs, run).effects[1].args[|e.command| - 1] == name
    ensures fs.readFile(name) == Success(body) ==>
      Edit(Service(Editor.AsInterface(Editor.NewEditor(command, tmpDir), fs, run)), body).response
        == Response(StatusOK, None, body)
  {
  }
}
