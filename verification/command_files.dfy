/** Command files: the JSON records under `claude_commands/` that the desktop
    automation picks up and types into Claude Code. The service writes one per
    queued request; the bridge route writes one per posted message. Directory
    creation and file writes are outcomes passed in. */
module CommandFileWriter {
  import opened Wrappers
  import opened Json
  import opened Text

  /** The directory under the data path. */
  const CommandsDir: string := "claude_commands"

  const Prefix: string := "command_"
  const Suffix: string := ".txt"

  /** `command_${id}.txt`. */
  function FileName(id: string): (n: string)
    ensures |n| == |Prefix| + |id| + |Suffix|
    ensures StartsWith(n, Prefix) && EndsWith(n, Suffix)
  {
    var n := Prefix + id + Suffix;
    assert n[..|Prefix|] == Prefix;
    assert n[|n| - |Suffix|..] == Suffix;
    n
  }

  /** The id a command file name carries. */
  function IdOf(n: string): string
    requires |n| >= |Prefix| + |Suffix|
  {
    n[|Prefix|..|n| - |Suffix|]
  }

  /** A command file's name gives back its id, so distinct ids never share a file. */
  lemma FileNameRoundTrip(id: string)
    ensures IdOf(FileName(id)) == id
  {
    var n := FileName(id);
    assert n == Prefix + id + Suffix;
    assert n[|Prefix|..|n| - |Suffix|] == id;
  }

  lemma FileNameInjective(a: string, b: string)
    ensures FileName(a) == FileName(b) <==> a == b
  {
    FileNameRoundTrip(a);
    FileNameRoundTrip(b);
  }

  /** `{id, command: message, message, timestamp}`; properties whose value is
      `undefined` are left out when the record is serialised. */
  function CommandContent(id: Option<Json>, message: Option<Json>, at: string): (c: Json)
    ensures Field(c, "id") == id
    ensures Field(c, "command") == message && Field(c, "message") == message
    ensures Field(c, "timestamp") == Some(Str(at))
  {
    var ts := [("timestamp", Str(at))];
    var ms := if message.Some? then [("message", message.value)] + ts else ts;
    var cs := if message.Some? then [("command", message.value)] + ms else ms;
    var fs := if id.Some? then [("id", id.value)] + cs else cs;
    assert "id"[0] != "command"[0] && "id"[0] != "message"[0] && "id"[0] != "timestamp"[0];
    assert "command"[0] != "message"[0] && "command"[0] != "timestamp"[0] && "message"[0] != "timestamp"[0];
    assert Get(ts, "timestamp") == Some(Str(at));
    assert Get(ms, "timestamp") == Some(Str(at)) && Get(ms, "message") == message && Get(ms, "command") == None && Get(ms, "id") == None by {
      if message.Some? { assert ms[1..] == ts; }
    }
    assert Get(cs, "timestamp") == Some(Str(at)) && Get(cs, "message") == message && Get(cs, "command") == message && Get(cs, "id") == None by {
      if message.Some? { assert cs[1..] == ms; }
    }
    assert id.Some? ==> fs[1..] == cs;
    Obj(fs)
  }

  /** A written command file: where it went and what it holds. */
  datatype Written = Written(path: string, content: Json)

  /** `writeCommand(id, message)`: creates the directory, writes the record and
      returns the path; a failure of either step is rethrown. */
  function WriteCommand(commandsPath: string, id: Option<Json>, message: Option<Json>, at: string,
                        mkdirError: Option<string>, writeError: Option<string>): (r: Result<Written, string>)
    ensures mkdirError.Some? ==> r == Err(mkdirError.value)
    ensures mkdirError.None? && writeError.Some? ==> r == Err(writeError.value)
    ensures r.Ok? ==> r.value.path == commandsPath + "/" + FileName(JsString(id))
    ensures r.Ok? ==> Field(r.value.content, "id") == id && Field(r.value.content, "command") == message
  {
    if mkdirError.Some? then Err(mkdirError.value)
    else if writeError.Some? then Err(writeError.value)
    else Ok(Written(commandsPath + "/" + FileName(JsString(id)), CommandContent(id, message, at)))
  }
}

/** The `/api/claude-bridge` routes: post a message as a command file, and list
    the command files waiting in the directory. */
module ClaudeBridge {
  import opened Wrappers
  import opened Json
  import opened Text
  import opened Http
  import opened Records
  import opened CommandFileWriter

  /** `cmd_${Date.now()}`. */
  function CommandId(millis: nat): string {
    "cmd_" + Digits(millis)
  }

  /** What the POST handler did: its answer and the command file it wrote. */
  datatype Posted = Posted(response: Response, written: Option<Written>)

  /** The `201` body. */
  function Accepted(commandId: string): Json {
    Obj([("success", Bool(true)), ("commandId", Str(commandId)), ("fileName", Str(FileName(commandId))),
         ("message", Str("Command queued for Claude Code"))])
  }

  /** `POST /api/claude-bridge`: a body without a truthy `message` is answered
      with `400` and nothing is written; a `null` body throws on destructuring and
      is answered with `500`; a failed directory creation or write is answered
      with `500` and its message. */
  function Post(body: Json, millis: nat, at: string, commandsPath: string,
                mkdirError: Option<string>, writeError: Option<string>): (p: Posted)
    ensures p.written.Some? <==> p.response.status == 201
    ensures p.response.status == 400 <==> !body.Null? && !(Field(body, "message").Some? && Truthy(Field(body, "message").value))
    ensures p.written.Some? ==> Field(p.written.value.content, "command") == Field(body, "message")
    ensures p.written.Some? ==> p.written.value.path == commandsPath + "/" + FileName(CommandId(millis))
  {
    if body.Null? then
      Posted(Response(500, ErrorBody("Internal Server Error", "Cannot destructure property 'message' of 'req.body' as it is null.")), None)
    else
      var message := Field(body, "message");
      if !(message.Some? && Truthy(message.value)) then
        Posted(Response(400, ErrorBody("Bad Request", "Message is required")), None)
      else
        var commandId := CommandId(millis);
        match WriteCommand(commandsPath, Some(Str(commandId)), message, at, mkdirError, writeError)
        case Err(e) => Posted(Response(500, ErrorBody("Internal Server Error", e)), None)
        case Ok(w) => Posted(Response(201, Accepted(commandId)), Some(w))
  }

  /** The names the status route counts. */
  predicate IsCommandFile(n: string) {
    StartsWith(n, Prefix) && EndsWith(n, Suffix)
  }

  /** `files.filter(f => f.startsWith('command_') && f.endsWith('.txt'))`. */
  function CommandFiles(names: seq<string>): (r: seq<string>)
    ensures |r| <= |names|
    decreases |names|
  {
    if |names| == 0 then []
    else (if IsCommandFile(names[0]) then [names[0]] else []) + CommandFiles(names[1..])
  }

  /** The listing keeps exactly the command files, in directory order. */
  lemma {:induction false} CommandFilesExact(names: seq<string>)
    ensures Subsequence(CommandFiles(names), names)
    ensures forall n | n in CommandFiles(names) :: IsCommandFile(n)
    ensures forall n | n in names && IsCommandFile(n) :: n in CommandFiles(names)
    decreases |names|
  {
    if |names| > 0 {
      CommandFilesExact(names[1..]);
      var rest := CommandFiles(names[1..]);
      SubsequenceCons(rest, names);
      if IsCommandFile(names[0]) {
        var r := [names[0]] + rest;
        assert r[1..] == rest;
      } else {
        assert [] + rest == rest;
      }
    }
  }

  lemma {:induction false} CommandFilesAppend(names: seq<string>, n: string)
    ensures CommandFiles(names + [n]) == CommandFiles(names) + (if IsCommandFile(n) then [n] else [])
    decreases |names|
  {
    if |names| == 0 {
      assert names + [n] == [n] && [n][1..] == [];
    } else {
      var head := if IsCommandFile(names[0]) then [names[0]] else [];
      var last := if IsCommandFile(n) then [n] else [];
      assert (names + [n])[0] == names[0];
      assert (names + [n])[1..] == names[1..] + [n];
      assert CommandFiles(names + [n]) == head + CommandFiles(names[1..] + [n]);
      CommandFilesAppend(names[1..], n);
      assert CommandFiles(names) == head + CommandFiles(names[1..]);
      assert head + (CommandFiles(names[1..]) + last) == (head + CommandFiles(names[1..])) + last;
    }
  }

  /** `GET /api/claude-bridge/status`: `listing` is `None` when the directory does
      not exist, otherwise the outcome of reading it. */
  function Status(listing: Option<Result<seq<string>, string>>): (r: Response)
    ensures listing.None? ==> r.status == 200 && Field(r.body, "pendingCommands") == Some(Num(0))
    ensures listing.Some? && listing.value.Err? <==> r.status == 500
  {
    match listing
    case None => StatusBody([])
    case Some(Err(e)) => Response(500, ErrorBody("Internal Server Error", e))
    case Some(Ok(names)) => StatusBody(CommandFiles(names))
  }

  function StatusBody(files: seq<string>): (r: Response)
    ensures r.status == 200
    ensures Field(r.body, "pendingCommands") == Some(Num(|files|))
  {
    var fs := [("status", Str("ready")), ("pendingCommands", Num(|files|)), ("commands", Arr(Strs(files)))];
    assert "status"[0] != "pendingCommands"[0];
    assert Get(fs, "pendingCommands") == Get(fs[1..], "pendingCommands");
    Response(200, Obj(fs))
  }

  /** A posted command shows up in the next status listing: once its file is in
      the directory, the count grows by one. The same holds for the files the
      service writes. */
  lemma PostThenStatus(names: seq<string>, millis: nat, id: string)
    ensures IsCommandFile(FileName(CommandId(millis))) && IsCommandFile(FileName(id))
    ensures Status(Some(Ok(names + [FileName(CommandId(millis))]))) ==
      StatusBody(CommandFiles(names) + [FileName(CommandId(millis))])
  {
    CommandFilesAppend(names, FileName(CommandId(millis)));
  }

  /** The route and the service write the same record for the same id. */
  lemma PostMatchesWriter(body: Json, millis: nat, at: string, commandsPath: string)
    requires Field(body, "message").Some? && Truthy(Field(body, "message").value)
    ensures Post(body, millis, at, commandsPath, None, None).written ==
      Some(WriteCommand(commandsPath, Some(Str(CommandId(millis))), Field(body, "message"), at, None, None).value)
  {
  }

  /** The command id is the clock reading, so two messages posted in the same
      millisecond go to the same file and the second overwrites the first. */
  lemma SameMillisecondSameFile(b1: Json, b2: Json, millis: nat, at1: string, at2: string, commandsPath: string)
    requires Field(b1, "message").Some? && Truthy(Field(b1, "message").value)
    requires Field(b2, "message").Some? && Truthy(Field(b2, "message").value)
    ensures Post(b1, millis, at1, commandsPath, None, None).written.Some?
    ensures Post(b2, millis, at2, commandsPath, None, None).written.Some?
    ensures Post(b1, millis, at1, commandsPath, None, None).written.value.path ==
      Post(b2, millis, at2, commandsPath, None, None).written.value.path
  {
  }
}
