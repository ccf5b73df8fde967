/** The live tail of a channel log: the file is polled, and what is new is cut into lines.
    A `char` stands for one byte. */
module LogTail {
  import opened Utf8

  datatype Frame = Keepalive | Rotated | Line(text: string)

  // ---- lines of a text ----------------------------------------------------------------------

  /** Up to the first newline, or the whole text. */
  function FirstNewline(text: string): (n: nat)
    ensures n <= |text|
    ensures n < |text| ==> text[n] == '\n'
    ensures '\n' !in text[..n]
  {
    if text == [] || text[0] == '\n' then 0
    else
      var n := 1 + FirstNewline(text[1..]);
      assert text[..n] == [text[0]] + text[1..][..n - 1];
      n
  }

  function WithoutCr(line: string): string {
    if line != [] && line[|line| - 1] == '\r' then line[..|line| - 1] else line
  }

  /** The complete lines of a text, each without its newline and one carriage return. */
  function Lines(text: string): seq<string> {
    var n := FirstNewline(text);
    if n == |text| then [] else [WithoutCr(text[..n])] + Lines(text[n + 1..])
  }

  /** What follows the last newline. */
  function Unfinished(text: string): string {
    var n := FirstNewline(text);
    if n == |text| then text else Unfinished(text[n + 1..])
  }

  lemma {:induction false} FirstNewlineKept(a: string, b: string)
    requires '\n' in a
    ensures FirstNewline(a + b) == FirstNewline(a) < |a|
  {
    if a[0] != '\n' {
      assert (a + b)[1..] == a[1..] + b;
      FirstNewlineKept(a[1..], b);
    }
  }

  lemma LinesEnd(text: string)
    requires FirstNewline(text) == |text|
    ensures Lines(text) == [] && Unfinished(text) == text
  {
    hide FirstNewline;
  }

  lemma LinesGoOn(text: string)
    requires FirstNewline(text) < |text|
    ensures var n := FirstNewline(text);
            && Lines(text) == [WithoutCr(text[..n])] + Lines(text[n + 1..])
            && Unfinished(text) == Unfinished(text[n + 1..])
  {
    hide FirstNewline, WithoutCr;
  }

  /** Cutting in two makes no difference: the lines of the whole are the lines of the first
      part and those of what it left unfinished with the second part behind it. */
  lemma {:induction false} LinesOfParts(a: string, b: string)
    ensures Lines(a + b) == Lines(a) + Lines(Unfinished(a) + b)
    ensures Unfinished(a + b) == Unfinished(Unfinished(a) + b)
    decreases |a|
  {
    hide FirstNewline, WithoutCr, Lines, Unfinished;
    var n := FirstNewline(a);
    if n < |a| {
      assert a[n] in a;
      FirstNewlineKept(a, b);
      assert (a + b)[..n] == a[..n];
      assert (a + b)[n + 1..] == a[n + 1..] + b;
      LinesGoOn(a);
      LinesGoOn(a + b);
      LinesOfParts(a[n + 1..], b);
    } else {
      LinesEnd(a);
      assert [] + Lines(a + b) == Lines(a + b);
    }
  }

  lemma {:induction false} UnfinishedHasNoNewline(text: string)
    ensures '\n' !in Unfinished(text) && Lines(Unfinished(text)) == []
    decreases |text|
  {
    var n := FirstNewline(text);
    if n < |text| {
      UnfinishedHasNoNewline(text[n + 1..]);
    } else {
      assert text[..n] == text;
      assert FirstNewline(text) == |text|;
    }
  }

  function Joined(lines: seq<string>): string {
    if lines == [] then [] else lines[0] + ['\n'] + Joined(lines[1..])
  }

  lemma JoinedStep(line: string, lines: seq<string>, rest: string)
    ensures Joined([line] + lines) + rest == line + ['\n'] + (Joined(lines) + rest)
  {
    assert ([line] + lines)[1..] == lines;
    assert line + ['\n'] + Joined(lines) + rest == line + ['\n'] + (Joined(lines) + rest);
  }

  /** Nothing is lost or changed but one carriage return at the end of a line: the lines as they
      stand in the text, put together again before what is left unfinished, are the text; none
      of them, nor what is left, holds a newline; and what is sent of each is all but that. */
  lemma {:induction false} LinesSayTheText(text: string) returns (raw: seq<string>)
    ensures Joined(raw) + Unfinished(text) == text
    ensures |raw| == |Lines(text)| && '\n' !in Unfinished(text)
    ensures forall i | 0 <= i < |raw| :: '\n' !in raw[i]
    ensures forall i | 0 <= i < |raw| ::
              Lines(text)[i] == if raw[i] != [] && raw[i][|raw[i]| - 1] == '\r' then raw[i][..|raw[i]| - 1] else raw[i]
    decreases |text|
  {
    hide FirstNewline, Lines, Unfinished, Joined;
    UnfinishedHasNoNewline(text);
    var n := FirstNewline(text);
    if n < |text| {
      LinesGoOn(text);
      var line, more := text[..n], text[n + 1..];
      var others := LinesSayTheText(more);
      JoinedStep(line, others, Unfinished(more));
      assert text == line + ['\n'] + more;
      raw := [line] + others;
    } else {
      LinesEnd(text);
      NothingJoined();
      assert [] + text == text;
      raw := [];
    }
  }

  lemma NothingJoined()
    ensures Joined([]) == []
  {
  }

  // ---- one poll --------------------------------------------------------------------------------

  /** What a poll finds: no file, a file whose size cannot be had or that cannot be opened, or
      its whole content. */
  datatype Found = Missing | Sizeless | Unreadable(size: nat) | Content(bytes: string)

  datatype State = State(offset: nat, carry: string)

  /** The lines that can be dumped as JSON: dump throws on the first that is not UTF-8. */
  predicate AllText(lines: seq<string>) {
    forall i | 0 <= i < |lines| :: Valid(lines[i])
  }

  function LineFrames(lines: seq<string>): seq<Frame> {
    if lines == [] then [] else LineFrames(lines[..|lines| - 1]) + [Line(lines[|lines| - 1])]
  }

  function Shrunk(s: State, size: nat): State {
    if size < s.offset then State(0, []) else s
  }

  function Mark(s: State, size: nat): seq<Frame> {
    if size < s.offset then [Rotated] else []
  }

  /** What a poll leaves behind, what it sends, and whether an exception left it: the lines it
      had ready are not sent then. */
  datatype Polled = Polled(state: State, sent: seq<Frame>, threw: bool)

  function Poll(s: State, found: Found): Polled {
    match found
    case Missing => Polled(s, [Keepalive], false)
    case Sizeless => Polled(s, [], false)
    case Unreadable(size) =>
      var s1 := Shrunk(s, size);
      Polled(s1, Mark(s, size) + if size == s1.offset then [Keepalive] else [], false)
    case Content(bytes) =>
      var s1 := Shrunk(s, |bytes|);
      if |bytes| == s1.offset then Polled(s1, Mark(s, |bytes|) + [Keepalive], false)
      else
        var p := SendLines(s1.carry + bytes[s1.offset..], |bytes|);
        p.(sent := Mark(s, |bytes|) + p.sent)
  }

  function SendLines(body: string, size: nat): Polled {
    var lines := Lines(body);
    if AllText(lines) then
      Polled(State(size, Unfinished(body)), if lines == [] then [Keepalive] else LineFrames(lines), false)
    else Polled(State(size, []), [], true)
  }

  function LinesIn(frames: seq<Frame>): seq<string> {
    if frames == [] then []
    else
      var last := frames[|frames| - 1];
      LinesIn(frames[..|frames| - 1]) + if last.Line? then [last.text] else []
  }

  lemma {:induction false} LinesInBoth(a: seq<Frame>, b: seq<Frame>)
    ensures LinesIn(a + b) == LinesIn(a) + LinesIn(b)
  {
    if b == [] {
      assert a + b == a;
    } else {
      LinesInBoth(a, b[..|b| - 1]);
      assert (a + b)[..|a + b| - 1] == a + b[..|b| - 1];
    }
  }

  lemma {:induction false} LinesInLineFrames(lines: seq<string>)
    ensures LinesIn(LineFrames(lines)) == lines
    ensures Rotated !in LineFrames(lines)
  {
    if lines != [] {
      LinesInLineFrames(lines[..|lines| - 1]);
    }
  }

  // ---- a run --------------------------------------------------------------------------------------

  /** A reader that subscribed to a file of `size` bytes. An exception ends the stream. */
  function Run(size: nat, polls: seq<Found>): Polled {
    if polls == [] then Polled(State(size, []), [], false)
    else
      var r := Run(size, polls[..|polls| - 1]);
      var p := Poll(r.state, polls[|polls| - 1]);
      if r.threw then r else p.(sent := r.sent + p.sent)
  }

  predicate Agrees(found: Found, size: nat, log: string) {
    match found
    case Missing => true
    case Sizeless => true
    case Unreadable(n) => size <= n <= |log|
    case Content(bytes) => size <= |bytes| && bytes <= log
  }

  /** The file only grew: every poll found a stretch of the one log from its start, and no
      poll found less than the one before. */
  predicate OnlyGrew(size: nat, polls: seq<Found>, log: string) {
    && size <= |log|
    && (forall i | 0 <= i < |polls| :: Agrees(polls[i], Run(size, polls[..i]).state.offset, log))
  }

  lemma PollGrowing(s: State, found: Found, start: nat, log: string)
    requires start <= s.offset <= |log| && Agrees(found, s.offset, log)
    requires s.carry == Unfinished(log[start..s.offset]) && AllText(Lines(log[start..s.offset]))
    ensures var p := Poll(s, found);
            && s.offset <= p.state.offset <= |log|
            && (p.threw <==> !AllText(Lines(log[start..p.state.offset])))
            && (if p.threw then p.sent == []
                else
                  && p.state.carry == Unfinished(log[start..p.state.offset])
                  && Lines(log[start..s.offset]) + LinesIn(p.sent) == Lines(log[start..p.state.offset]))
            && Rotated !in p.sent
  {
    hide Lines, Unfinished, AllText, LinesIn;
    NoLines();
    if found.Content? && |found.bytes| > s.offset {
      hide SendLines;
      var bytes := found.bytes;
      assert bytes == log[..|bytes|];
      assert log[start..s.offset] + bytes[s.offset..] == log[start..|bytes|];
      SendGrowing(log[start..s.offset], bytes[s.offset..], |bytes|);
      var p := SendLines(s.carry + bytes[s.offset..], |bytes|);
      assert [] + p.sent == p.sent;
    } else {
      var none: seq<Frame> := [];
      assert none + none == none && none + [Keepalive] == [Keepalive];
      assert Lines(log[start..s.offset]) + [] == Lines(log[start..s.offset]);
    }
  }

  lemma SendGrowing(seen: string, added: string, size: nat)
    requires AllText(Lines(seen))
    ensures var p := SendLines(Unfinished(seen) + added, size);
            && p.state.offset == size
            && (p.threw <==> !AllText(Lines(seen + added)))
            && (if p.threw then p.sent == []
                else
                  && p.state.carry == Unfinished(seen + added)
                  && Lines(seen) + LinesIn(p.sent) == Lines(seen + added))
            && Rotated !in p.sent
  {
    hide Lines, Unfinished, AllText, LinesIn, LineFrames;
    LinesOfParts(seen, added);
    var lines := Lines(Unfinished(seen) + added);
    TextInBoth(Lines(seen), lines);
    NoLines();
    LinesInLineFrames(lines);
  }

  lemma TextInBoth(a: seq<string>, b: seq<string>)
    ensures AllText(a + b) <==> AllText(a) && AllText(b)
  {
    hide Valid;
    if AllText(a + b) {
      forall i | 0 <= i < |a| ensures Valid(a[i]) {
        assert (a + b)[i] == a[i];
      }
      forall i | 0 <= i < |b| ensures Valid(b[i]) {
        assert (a + b)[|a| + i] == b[i];
      }
    }
  }

  lemma NoLines()
    ensures LinesIn([Keepalive]) == [] && LinesIn([]) == []
  {
    var none: seq<Frame> := [];
    assert [Keepalive][..0] == none;
  }

  lemma GrewBefore(size: nat, polls: seq<Found>, log: string)
    requires OnlyGrew(size, polls, log) && polls != []
    ensures OnlyGrew(size, polls[..|polls| - 1], log)
    ensures Agrees(polls[|polls| - 1], Run(size, polls[..|polls| - 1]).state.offset, log)
  {
    hide Run, Agrees;
    var before := polls[..|polls| - 1];
    forall i | 0 <= i < |before| ensures Agrees(before[i], Run(size, before[..i]).state.offset, log) {
      assert before[..i] == polls[..i] && before[i] == polls[i];
    }
  }

  /** What has been sent are the lines of the log from `size` up to `upTo`, all of them text. */
  predicate SentUpTo(sent: seq<Frame>, log: string, size: nat, upTo: nat) {
    && size <= upTo <= |log|
    && LinesIn(sent) == Lines(log[size..upTo])
    && AllText(LinesIn(sent))
    && Rotated !in sent
  }

  /** Chunk by chunk or all at once: however the log's growth is cut into polls, with the file
      missing or unreadable in between, what was sent is exactly the complete lines of the
      bytes appended since the subscription, each once and in order, what is carried is the
      unfinished line behind them, and nothing is announced as rotated, as long as those lines
      are UTF-8. The first poll to meet one that is not ends the stream, and then what was sent
      is what earlier polls had read. */
  lemma {:induction false} TailSplitsTheLog(size: nat, polls: seq<Found>, log: string) returns (upTo: nat)
    requires OnlyGrew(size, polls, log)
    ensures var r := Run(size, polls);
            && upTo <= r.state.offset <= |log|
            && SentUpTo(r.sent, log, size, upTo)
            && (r.threw <==> !AllText(Lines(log[size..r.state.offset])))
            && (!r.threw ==> upTo == r.state.offset && r.state.carry == Unfinished(log[size..upTo]))
  {
    hide Poll, Lines, Unfinished, Agrees, AllText;
    if polls == [] {
      upTo := size;
      assert log[size..size] == [];
      NothingToSplit();
    } else {
      hide LinesIn, OnlyGrew;
      var n := |polls| - 1;
      GrewBefore(size, polls, log);
      upTo := TailSplitsTheLog(size, polls[..n], log);
      var r := Run(size, polls[..n]);
      if !r.threw {
        var p := Poll(r.state, polls[n]);
        PollGrowing(r.state, polls[n], size, log);
        LinesInBoth(r.sent, p.sent);
        if p.threw {
          assert r.sent + [] == r.sent;
        } else {
          upTo := p.state.offset;
        }
      }
    }
  }

  lemma NothingToSplit()
    ensures Lines([]) == [] && Unfinished([]) == [] && AllText([])
  {
  }

  /** In particular, of two readers of the same log who have come equally far, whatever their
      polls, both streams or neither have ended, and if neither has, they have been sent the
      same lines. */
  lemma PollsDoNotMatter(size: nat, polls: seq<Found>, others: seq<Found>, log: string)
    requires OnlyGrew(size, polls, log) && OnlyGrew(size, others, log)
    requires Run(size, polls).state.offset == Run(size, others).state.offset
    ensures var r, r' := Run(size, polls), Run(size, others);
            && r.threw == r'.threw
            && (!r.threw ==> r.state == r'.state && LinesIn(r.sent) == LinesIn(r'.sent))
  {
    hide Run, OnlyGrew, AllText;
    var upTo := TailSplitsTheLog(size, polls, log);
    var upTo' := TailSplitsTheLog(size, others, log);
  }

  /** When a rotation is noticed: exactly when the file a poll sizes up is shorter than what the
      reader has read. Another file of at least that length passes for the old one grown. */
  lemma RotationNoticed(s: State, found: Found)
    ensures Rotated in Poll(s, found).sent
            <==> ((found.Unreadable? && found.size < s.offset) || (found.Content? && |found.bytes| < s.offset))
  {
    hide Lines, Unfinished, AllText;
    if found.Content? {
      var s1 := Shrunk(s, |found.bytes|);
      if |found.bytes| != s1.offset {
        LinesInLineFrames(Lines(s1.carry + found.bytes[s1.offset..]));
      }
    }
  }

  /** When a poll says that there is nothing to say: there is no file, or it has not grown, or it
      has no further complete line. */
  lemma KeepaliveMeans(s: State, found: Found)
    ensures var from := if found.Unreadable? && found.size < s.offset then 0
                        else if found.Content? && |found.bytes| < s.offset then 0 else s.offset;
            var carried := if from == s.offset then s.carry else [];
            Keepalive in Poll(s, found).sent <==>
              || found.Missing?
              || (found.Unreadable? && found.size == from)
              || (found.Content? && (|found.bytes| == from || '\n' !in carried + found.bytes[from..]))
  {
    hide Lines, Unfinished, AllText;
    if found.Content? {
      var s1 := Shrunk(s, |found.bytes|);
      if |found.bytes| != s1.offset {
        var body := s1.carry + found.bytes[s1.offset..];
        SomeLine(body);
        LinesInLineFrames(Lines(body));
        NoFrames(Lines(body));
        NoKeepalive(Lines(body));
        NothingIsText();
      }
    }
  }

  lemma NothingIsText()
    ensures AllText([])
  {
  }

  lemma {:induction false} NoKeepalive(lines: seq<string>)
    ensures Keepalive !in LineFrames(lines)
  {
    if lines != [] {
      NoKeepalive(lines[..|lines| - 1]);
    }
  }

  lemma SomeLine(text: string)
    ensures Lines(text) == [] <==> '\n' !in text
  {
    hide WithoutCr;
    var n := FirstNewline(text);
    assert text[..|text|] == text;
  }

  /** A rotation that is noticed starts the reader afresh: it is told, and then sent the lines
      of the new file from its first byte, or, if one of them is not UTF-8, nothing more. */
  lemma RotationStartsAfresh(s: State, bytes: string)
    requires |bytes| < s.offset
    ensures var p := Poll(s, Content(bytes));
            && p.sent != [] && p.sent[0] == Rotated
            && (p.threw <==> !AllText(Lines(bytes)))
            && (if p.threw then p.sent == [Rotated]
                else p.state == State(|bytes|, Unfinished(bytes)) && LinesIn(p.sent) == Lines(bytes))
  {
    hide Lines, Unfinished, AllText;
    NothingToSplit();
    NoLines();
    assert bytes[0..] == bytes && [] + bytes == bytes;
    LinesInLineFrames(Lines(bytes));
    var none: seq<Frame> := [];
    assert [Rotated][..0] == none && LinesIn([Rotated]) == [];
    assert [Rotated] + none == [Rotated];
    LinesInBoth([Rotated], [Keepalive]);
    LinesInBoth([Rotated], LineFrames(Lines(bytes)));
  }

  /** One that is not noticed, because the new file is at least as long as what was read of the
      old one, loses its beginning: all the reader ever sees of the two files is the same for
      every new file that ends alike. */
  lemma RotationUnnoticed(s: State, bytes: string, other: string)
    requires s.offset <= |bytes| == |other| && bytes[s.offset..] == other[s.offset..]
    ensures Poll(s, Content(bytes)) == Poll(s, Content(other))
  {
  }

  // ---- the stream as it runs ---------------------------------------------------------------------

  class LogStream {
    var offset: nat
    var carry: string

    function Now(): State
      reads this
    {
      State(offset, carry)
    }

    constructor (size: nat)
      ensures Now() == State(size, [])
    {
      offset := size;
      carry := [];
    }

    method PollOnce(found: Found) returns (sent: seq<Frame>, threw: bool)
      modifies this
      ensures Polled(Now(), sent, threw) == Poll(old(Now()), found)
    {
      sent, threw := [], false;
      if found.Missing? {
        return [Keepalive], false;
      }
      if found.Sizeless? {
        return [], false;
      }
      var size := if found.Unreadable? then found.size else |found.bytes|;
      if size < offset {
        offset, carry := 0, [];
        sent := [Rotated];
      }
      if size == offset {
        return sent + [Keepalive], false;
      }
      if found.Unreadable? {
        assert sent + [] == sent;
        return;
      }
      var body := carry + found.bytes[offset..];
      offset, carry := size, [];
      var payload;
      payload, carry, threw := SplitBody(body);
      if threw {
        assert sent + [] == sent;
        return;
      }
      NoFrames(Lines(body));
      sent := sent + if payload == [] then [Keepalive] else payload;
    }
  }

  /** Walks over the newlines of the body and dumps each line. */
  method SplitBody(body: string) returns (payload: seq<Frame>, carry: string, threw: bool)
    ensures threw <==> !AllText(Lines(body))
    ensures if threw then carry == [] else payload == LineFrames(Lines(body)) && carry == Unfinished(body)
  {
    hide LineFrames, Lines, Unfinished, FirstNewline, AllText, Valid;
    payload, carry, threw := [], [], false;
    ghost var done: seq<string> := [];
    NoFrames(done);
    NothingToSplit();
    var pos := 0;
    assert body[0..] == body;
    while pos < |body|
      invariant pos <= |body|
      invariant done + Lines(body[pos..]) == Lines(body) && payload == LineFrames(done) && AllText(done)
      invariant Unfinished(body[pos..]) == Unfinished(body) && carry == [] && !threw
      decreases |body| - pos
    {
      var left := body[pos..];
      var nl := FirstNewline(left);
      if nl == |left| {
        LinesEnd(left);
        assert done + [] == done;
        return payload, left, false;
      }
      LinesGoOn(left);
      var line := left[..nl];
      if line != [] && line[|line| - 1] == '\r' {
        line := line[..|line| - 1];
      }
      assert body[pos + nl + 1..] == left[nl + 1..];
      assert done + ([line] + Lines(left[nl + 1..])) == done + [line] + Lines(left[nl + 1..]);
      OneMore(done, line, Lines(left[nl + 1..]));
      if !Valid(line) {
        return payload, [], true;
      }
      LineFramesMore(done, line);
      done := done + [line];
      payload := payload + [Line(line)];
      pos := pos + nl + 1;
    }
    assert body[pos..] == [];
    assert done + [] == done;
  }

  lemma OneMore(done: seq<string>, line: string, more: seq<string>)
    requires AllText(done)
    ensures AllText(done + [line]) <==> Valid(line)
    ensures !Valid(line) ==> !AllText(done + [line] + more)
  {
    hide Valid;
    TextInBoth(done, [line]);
    TextInBoth(done + [line], more);
    assert [line][0] == line;
  }

  lemma NoFrames(lines: seq<string>)
    ensures LineFrames(lines) == [] <==> lines == []
  {
  }

  lemma LineFramesMore(lines: seq<string>, line: string)
    ensures LineFrames(lines + [line]) == LineFrames(lines) + [Line(line)]
  {
    assert (lines + [line])[..|lines|] == lines;
  }
}
