/** The bridge between HTTP callers and one child process: reading a reply off the child's pipe, and
    calls serialised by a lock. */
module Bridge {
  import opened Text
  import opened Framing

  /** One direction of a pipe. Reads and writes are complete: a read returns all the bytes asked for
      unless the other end is closed behind the bytes held here. */
  class Pipe {
    var content: Bytes

    constructor ()
      ensures content == []
    {
      content := [];
    }

    method Write(data: Bytes)
      modifies this
      ensures content == old(content) + data
    {
      content := content + data;
    }

    /** Up to and including the next line feed; everything when there is none. */
    method ReadLine() returns (line: Bytes)
      modifies this
      ensures line + content == old(content)
      ensures var n := Until(old(content), IsLf); line == old(content)[..if n < |old(content)| then n + 1 else n]
    {
      var n := Until(content, IsLf);
      var k := if n < |content| then n + 1 else n;
      line := content[..k];
      content := content[k..];
    }

    method Read(count: nat) returns (data: Bytes)
      modifies this
      ensures data + content == old(content)
      ensures |data| == if count <= |old(content)| then count else |old(content)|
    {
      var k := if count <= |content| then count else |content|;
      data := content[..k];
      content := content[k..];
    }
  }

  datatype Outcome = Reply(body: Bytes) | NoResponse

  /** A body is the reply; an empty one, or the end of the stream, is reported as no response. */
  function OutcomeOf(m: Message): Outcome {
    if m.Eof? || m.body == [] then NoResponse else Reply(m.body)
  }

  const NO_RESPONSE := -32603
  const INVALID_JSON := -32700

  /** What the HTTP caller gets: the decoded reply, or an error object with a JSON-RPC code. */
  datatype Response = Result(body: Bytes) | Error(code: int)

  function Respond(outcome: Outcome, isJson: Bytes -> bool): Response {
    match outcome
    case NoResponse => Error(NO_RESPONSE)
    case Reply(body) => if isJson(body) then Result(body) else Error(INVALID_JSON)
  }

  class Child {
    const stdin: Pipe
    const stdout: Pipe

    constructor ()
      ensures fresh(stdin) && fresh(stdout) && stdin != stdout
      ensures stdin.content == [] && stdout.content == []
    {
      stdin := new Pipe();
      stdout := new Pipe();
    }

    /** Read header lines until a blank one, then the announced number of bytes. */
    method ReadMessage() returns (body: Option<Bytes>)
      modifies stdout
      ensures var m := Framing.ReadMessage(old(stdout.content));
        if m.Eof? then body == None && stdout.content == []
        else body == Some(m.body) && stdout.content == m.rest
    {
      ghost var s := stdout.content;
      var headers: Headers := map[];
      while true
        invariant ReadHeaders(stdout.content, headers) == ReadHeaders(s, map[])
        decreases |stdout.content|
      {
        ghost var before := stdout.content;
        ghost var n := Until(before, IsLf);
        var line := stdout.ReadLine();
        if line == [] {
          return None;
        }
        assert n < |before| ==> line == before[..n + 1] && stdout.content == before[n + 1..];
        if IsBlankLine(line) {
          assert line[|line| - 1] == LF;
          break;
        }
        if COLON in line {
          var k := Until(line, IsColon);
          headers := headers[LowerBytes(Strip(line[..k], IsBlank)) := Strip(line[k + 1..], IsBlank)];
        }
        if n == |before| {
          assert ReadHeaders([], headers).None?;
        }
      }
      var length := BodyLength(headers);
      if length > 0 {
        var data := stdout.Read(length);
        body := Some(data);
      } else {
        body := Some([]);
      }
    }

    /** One call: write the request's frame, let the child answer with `answer`, read one message and decode it. */
    method Call(request: Bytes, answer: Bytes, isJson: Bytes -> bool) returns (r: Response)
      requires stdin != stdout
      modifies stdin, stdout
      ensures stdin.content == old(stdin.content) + Frame(request)
      ensures var m := Framing.ReadMessage(old(stdout.content) + answer);
        && r == Respond(OutcomeOf(m), isJson) && stdout.content == (if m.Eof? then [] else m.rest)
        && r == if m.Eof? || m.body == [] then Error(-32603)
                else if isJson(m.body) then Result(m.body) else Error(-32700)
    {
      stdin.Write(Header(request));
      stdin.Write(request);
      stdout.content := stdout.content + answer;
      var body := ReadMessage();
      if body.None? || body.value == [] {
        return Error(NO_RESPONSE);
      }
      if !isJson(body.value) {
        return Error(INVALID_JSON);
      }
      return Result(body.value);
    }
  }

  /** A call whose child ends its output before a blank line, as one that has exited does, is told so. */
  lemma NoBlankLineNoResponse(s: Bytes, isJson: Bytes -> bool)
    requires NoBlankLine(s)
    ensures Framing.ReadMessage(s).Eof? && Respond(OutcomeOf(Framing.ReadMessage(s)), isJson) == Error(-32603)
  {
    EndOfStream(s);
  }

  /** A call on a quiet pipe whose child answers with one frame gets exactly that reply, or the code for what is wrong
      with it, and leaves the pipe quiet. */
  lemma OneFrameOneReply(w: Wire, isJson: Bytes -> bool)
    requires w.Valid()
    ensures var m := Framing.ReadMessage(w.Bytes());
      && m.Message? && m.rest == []
      && Respond(OutcomeOf(m), isJson) ==
         if w.body == [] then Error(-32603) else if isJson(w.body) then Result(w.body) else Error(-32700)
  {
    ReadWire(w, []);
    assert w.Bytes() + [] == w.Bytes();
  }
}
