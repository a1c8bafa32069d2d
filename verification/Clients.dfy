/** The client's end of a response: rendering one, and reading one off a
    connection without touching the next (crates/vs-cli/src/client.rs). */
module Clients {

  import opened Results
  import opened Text
  import opened Envelopes

  datatype Response = Response(warnings: seq<Warning>, envelope: Envelope, body: seq<string>)

  datatype ClientError = ConnectionClosed | UnexpectedLine(line: string) | BadLine(error: EnvelopeError)

  // ------------------------------------------------------------- rendering

  function ResponseLines(r: Response): seq<string>
  {
    HeadLines(ResponseHead(r.warnings, r.envelope)) + r.body + [""]
  }

  function Rendered(r: Response): string { Unlines(ResponseLines(r)) }

  method RenderWire(r: Response) returns (out: string)
    ensures out == Rendered(r)
  {
    hide HeadLines, Unlines;
    var head := ResponseHead(r.warnings, r.envelope);
    out := EncodeResponseHead(head);
    UnlinesConcat(HeadLines(head), r.body + [""]);
    assert ResponseLines(r) == HeadLines(head) + (r.body + [""]);
    for i := 0 to |r.body|
      invariant out + Unlines(r.body[i..] + [""]) == Rendered(r)
    {
      assert r.body[i..] + [""] == [r.body[i]] + (r.body[i+1..] + [""]);
      UnlinesFirst(out, r.body[i], r.body[i+1..] + [""]);
      assert out + (r.body[i] + "\n") == (out + r.body[i]) + "\n";
      out := out + r.body[i];
      out := out + "\n";
    }
    BlankLine();
    assert [] + [""] == [""];
    out := out + "\n";
  }

  lemma BlankLine()
    ensures Unlines([""]) == "\n"
  {
    assert [""][1..] == [];
  }

  // --------------------------------------------------------------- reading

  /** One read: the text up to and with the newline, or all there is. */
  function ReadLine(stream: string): (string, string)
  {
    var i := IndexOf(stream, '\n');
    if i == |stream| then (stream, []) else (stream[..i+1], stream[i+1..])
  }

  /** The line without its newline and a carriage return before that. */
  function Chomped(raw: string): string
  {
    if raw != [] && raw[|raw|-1] == '\n' then StripReturn(raw[..|raw|-1]) else raw
  }

  datatype Progress = Progress(warnings: seq<Warning>, envelope: Option<Envelope>, body: seq<string>)

  datatype Step = Done | More(next: Progress) | Failed(error: ClientError)

  /** What one line does to the response read so far. */
  function LineStep(line: string, p: Progress): (s: Step)
    ensures s.Done? ==> p.envelope.Some?
  {
    if line == [] then (if p.envelope.Some? then Done else More(p))
    else if p.envelope.None? then
      if line[0] == '?' then
        match ParseWarningLine(line)
        case Err(e) => Failed(BadLine(e))
        case Ok(w) => More(p.(warnings := p.warnings + [w]))
      else if line[0] == '@' || line[0] == '!' then
        match ParseEnvelope(line)
        case Err(e) => Failed(BadLine(e))
        case Ok(e) => More(p.(envelope := Some(e)))
      else Failed(UnexpectedLine(line))
    else More(p.(body := p.body + [line]))
  }

  /** Read lines until the blank one that ends the response; the rest stays unread. */
  function ReadFrom(stream: string, p: Progress): (Result<Response, ClientError>, string)
    decreases |stream|
  {
    if stream == [] then (Err(ConnectionClosed), stream)
    else
      var (raw, rest) := ReadLine(stream);
      match LineStep(Chomped(raw), p)
      case Failed(e) => (Err(e), rest)
      case More(next) => ReadFrom(rest, next)
      case Done => (Ok(Response(p.warnings, p.envelope.value, p.body)), rest)
  }

  const NOTHING_YET := Progress([], None, [])

  class Connection {
    var incoming: string

    constructor (text: string)
      ensures incoming == text
    {
      incoming := text;
    }

    method NextRaw() returns (raw: string)
      modifies this
      ensures (raw, incoming) == ReadLine(old(incoming))
    {
      var i := IndexOf(incoming, '\n');
      if i == |incoming| {
        raw := incoming;
        incoming := [];
      } else {
        raw := incoming[..i+1];
        incoming := incoming[i+1..];
      }
    }

    method Receive() returns (result: Result<Response, ClientError>)
      modifies this
      ensures (result, incoming) == ReadFrom(old(incoming), NOTHING_YET)
    {
      hide LineStep;
      var progress := NOTHING_YET;
      while true
        invariant ReadFrom(incoming, progress) == ReadFrom(old(incoming), NOTHING_YET)
        decreases |incoming|
      {
        if incoming == [] { return Err(ConnectionClosed); }
        var buf := NextRaw();
        buf := Chomped(buf);
        var step := TakeLine(buf, progress);
        match step {
          case Failed(e) => return Err(e);
          case More(next) => progress := next;
          case Done => return Ok(Response(progress.warnings, progress.envelope.value, progress.body));
        }
      }
    }
  }

  method TakeLine(line: string, p: Progress) returns (step: Step)
    ensures step == LineStep(line, p)
  {
    hide ParseWarningLine, ParseEnvelope;
    if line == [] {
      return if p.envelope.Some? then Done else More(p);
    }
    if p.envelope.None? {
      if line[0] == '?' {
        var w := ParseWarningLine(line);
        if w.Err? { return Failed(BadLine(w.error)); }
        return More(p.(warnings := p.warnings + [w.value]));
      }
      if line[0] == '@' || line[0] == '!' {
        var e := ParseEnvelope(line);
        if e.Err? { return Failed(BadLine(e.error)); }
        return More(p.(envelope := Some(e.value)));
      }
      return Failed(UnexpectedLine(line));
    }
    return More(p.(body := p.body + [line]));
  }
}
