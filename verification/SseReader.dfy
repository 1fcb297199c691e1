/** iron-bench/src/client.rs: the incremental reader of a streamed chat completion. */
module SseReader {
  import opened Bits
  import opened Basics
  import opened Utf8

  // ---- Splitting a text into events ----------------------------------------------

  predicate SeparatorAt(s: string, i: nat) {
    i + 2 <= |s| && s[i] == '\n' && s[i + 1] == '\n'
  }

  predicate HasSeparator(s: string) {
    exists i: nat :: i < |s| && SeparatorAt(s, i)
  }

  /** `buffer.find("\n\n")`: the first occurrence. */
  function Find(s: string): (i: nat)
    requires HasSeparator(s)
    ensures SeparatorAt(s, i)
    ensures forall j: nat :: j < i ==> !SeparatorAt(s, j)
  {
    if SeparatorAt(s, 0) then 0
    else
      assert HasSeparator(s[1..]) by {
        var i: nat :| i < |s| && SeparatorAt(s, i);
        assert SeparatorAt(s[1..], i - 1);
      }
      var k := Find(s[1..]);
      assert forall j: nat :: 0 < j < 1 + k ==> !SeparatorAt(s, j) by {
        forall j: nat | 0 < j < 1 + k ensures !SeparatorAt(s, j) { assert !SeparatorAt(s[1..], j - 1); }
      }
      1 + k
  }

  lemma FindInRange(s: string)
    requires HasSeparator(s)
    ensures Find(s) + 2 <= |s| && s == s[..Find(s)] + "\n\n" + s[Find(s) + 2..]
  {
    hide HasSeparator, Find;
    SeparatorSplits(s, Find(s));
  }

  lemma SeparatorSplits(s: string, i: nat)
    requires SeparatorAt(s, i)
    ensures s == s[..i] + "\n\n" + s[i + 2..]
  {
    assert s[i..i + 2] == "\n\n";
    assert s == s[..i] + s[i..i + 2] + s[i + 2..];
  }

  /** Complete events, and what is left over. */
  datatype Parts = Parts(events: seq<string>, rest: string)

  /** The whole text cut at its separators, from the left. */
  function Split(s: string): Parts
    decreases |s|
  {
    if !HasSeparator(s) then Parts([], s)
    else
      var i := Find(s);
      var tail := Split(s[i + 2..]);
      Parts([s[..i]] + tail.events, tail.rest)
  }

  /** The text the parts were cut from. */
  function Joined(p: Parts): string
    decreases |p.events|
  {
    if |p.events| == 0 then p.rest else p.events[0] + "\n\n" + Joined(Parts(p.events[1..], p.rest))
  }

  /** No separator starts inside an event: the one that ends it is the first one met. */
  predicate EndsAtFirst(event: string) {
    forall j: nat :: j < |event| ==> !SeparatorAt(event + "\n\n", j)
  }

  lemma SplitAtFirst(event: string, tail: string)
    requires EndsAtFirst(event)
    ensures HasSeparator(event + "\n\n" + tail)
    ensures Split(event + "\n\n" + tail) == Parts([event] + Split(tail).events, Split(tail).rest)
  {
    var s := event + "\n\n" + tail;
    assert SeparatorAt(s, |event|);
    forall j: nat | j < |event| ensures !SeparatorAt(s, j) {
      assert !SeparatorAt(event + "\n\n", j);
    }
    assert Find(s) == |event|;
    assert s[..|event|] == event && s[|event| + 2..] == tail;
  }

  lemma FirstEvent(s: string)
    requires HasSeparator(s)
    ensures EndsAtFirst(s[..Find(s)]) && s == s[..Find(s)] + "\n\n" + s[Find(s) + 2..]
  {
    hide HasSeparator, SeparatorAt;
    FindInRange(s);
    var i := Find(s);
    forall j: nat | j < i ensures !SeparatorAt(s[..i] + "\n\n", j) {
      assert !SeparatorAt(s, j);
      SameSeparator(s, s[..i] + "\n\n", j);
    }
  }

  lemma SameSeparator(s: string, t: string, j: nat)
    requires j + 2 <= |s| && j + 2 <= |t| && s[j..j + 2] == t[j..j + 2]
    ensures SeparatorAt(s, j) <==> SeparatorAt(t, j)
  {
    assert s[j] == s[j..j + 2][0] && s[j + 1] == s[j..j + 2][1];
    assert t[j] == t[j..j + 2][0] && t[j + 1] == t[j..j + 2][1];
  }

  /** The parts join to the text, the leftover holds no separator, and no event runs past one. */
  lemma {:induction false} SplitIsFaithful(s: string)
    ensures Joined(Split(s)) == s && !HasSeparator(Split(s).rest)
    ensures forall k :: 0 <= k < |Split(s).events| ==> EndsAtFirst(Split(s).events[k])
    decreases |s|
  {
    hide EndsAtFirst, HasSeparator;
    if HasSeparator(s) {
      FirstEvent(s);
      var i := Find(s);
      SplitIsFaithful(s[i + 2..]);
      assert Split(s).events[1..] == Split(s[i + 2..]).events;
    }
  }

  /** These three facts determine the parts. */
  lemma {:induction false} SplitIsUnique(p: Parts)
    requires !HasSeparator(p.rest) && forall k :: 0 <= k < |p.events| ==> EndsAtFirst(p.events[k])
    ensures Split(Joined(p)) == p
    decreases |p.events|
  {
    hide EndsAtFirst, HasSeparator, Split;
    if |p.events| > 0 {
      var tail := Parts(p.events[1..], p.rest);
      SplitIsUnique(tail);
      SplitAtFirst(p.events[0], Joined(tail));
      assert p.events == [p.events[0]] + p.events[1..];
    } else {
      NothingToDrain(p.rest);
    }
  }

  /** Reading on: splitting a longer text continues from the leftover of the shorter one. */
  lemma {:induction false} SplitAppend(a: string, b: string)
    ensures Split(a + b).events == Split(a).events + Split(Split(a).rest + b).events
    ensures Split(a + b).rest == Split(Split(a).rest + b).rest
    decreases |a|
  {
    hide EndsAtFirst, HasSeparator, Split;
    if HasSeparator(a) {
      FirstEvent(a);
      DrainOne(a);
      var i := Find(a);
      var event, tail := a[..i], a[i + 2..];
      SplitAppend(tail, b);
      assert a + b == event + "\n\n" + (tail + b);
      SplitAtFirst(event, tail + b);
      var x, y := Split(tail).events, Split(Split(tail).rest + b).events;
      assert [event] + (x + y) == ([event] + x) + y;
    } else {
      NothingToDrain(a);
      assert [] + Split(a + b).events == Split(a + b).events;
    }
  }

  // ---- Lines and payloads --------------------------------------------------------

  /** Position of the first line feed, or the length. */
  function LineEnd(s: string): (i: nat)
    ensures i <= |s| && (i < |s| ==> s[i] == '\n')
  {
    if |s| == 0 || s[0] == '\n' then 0 else 1 + LineEnd(s[1..])
  }

  function WithoutCr(line: string): string {
    if |line| > 0 && line[|line| - 1] == '\r' then line[..|line| - 1] else line
  }

  /** `str::lines`. */
  function Lines(s: string): seq<string>
    decreases |s|
  {
    if |s| == 0 then []
    else
      var i := LineEnd(s);
      if i == |s| then [s] else [WithoutCr(s[..i])] + Lines(s[i + 1..])
  }

  /** The payload of a line, when it is a data line other than the end marker. */
  function LinePayload(line: string, white: Space): seq<string> {
    if "data: " <= line && Trim(line[6..], white) != "[DONE]" then [Trim(line[6..], white)] else []
  }

  function PayloadsOfLines(lines: seq<string>, white: Space): seq<string> {
    if |lines| == 0 then [] else LinePayload(lines[0], white) + PayloadsOfLines(lines[1..], white)
  }

  function Payloads(events: seq<string>, white: Space): seq<string> {
    if |events| == 0 then [] else PayloadsOfLines(Lines(events[0]), white) + Payloads(events[1..], white)
  }

  lemma {:induction false} PayloadsAppend(a: seq<string>, b: seq<string>, white: Space)
    ensures Payloads(a + b, white) == Payloads(a, white) + Payloads(b, white)
    decreases |a|
  {
    hide Lines, PayloadsOfLines;
    if |a| == 0 {
      assert a + b == b;
    } else {
      assert (a + b)[1..] == a[1..] + b;
      PayloadsAppend(a[1..], b, white);
    }
  }

  // ---- What lines and payloads are -----------------------------------------------

  lemma {:induction false} LineEndAt(line: string, rest: string)
    requires '\n' !in line
    ensures LineEnd(line) == |line| && LineEnd(line + "\n" + rest) == |line|
  {
    if |line| > 0 {
      assert (line + "\n" + rest)[1..] == line[1..] + "\n" + rest;
      LineEndAt(line[1..], rest);
    } else {
      assert (line + "\n" + rest)[0] == '\n';
    }
  }

  /** A carriage return before the line feed belongs to the line end; any other character stays. */
  lemma WithoutCrLaw(line: string)
    ensures WithoutCr(line + "\r") == line
    ensures (|line| > 0 ==> line[|line| - 1] != '\r') ==> WithoutCr(line) == line
  {
    assert (line + "\r")[..|line|] == line;
  }

  lemma FirstLine(line: string, rest: string)
    requires '\n' !in line
    ensures Lines(line + "\n" + rest) == [WithoutCr(line)] + Lines(rest)
    ensures Lines(line) == if line == "" then [] else [line]
  {
    LineEndAt(line, rest);
    var s := line + "\n" + rest;
    assert s[..|line|] == line && s[|line| + 1..] == rest;
  }

  /** A text of lines, each closed by a line feed, or by a carriage return and a line feed. */
  function Terminated(lines: seq<string>, withCr: seq<bool>): string
    requires |withCr| == |lines|
  {
    if |lines| == 0 then ""
    else lines[0] + (if withCr[0] then "\r" else "") + "\n" + Terminated(lines[1..], withCr[1..])
  }

  /** Reading such a text gives its lines back. */
  lemma {:induction false} LinesOfTerminated(lines: seq<string>, withCr: seq<bool>)
    requires |withCr| == |lines|
    requires forall i :: 0 <= i < |lines| ==> '\n' !in lines[i]
    requires forall i :: 0 <= i < |lines| && |lines[i]| > 0 ==> lines[i][|lines[i]| - 1] != '\r'
    ensures Lines(Terminated(lines, withCr)) == lines
  {
    hide Lines, WithoutCr;
    if |lines| == 0 {
      FirstLine("", "");
    } else {
      var cr := if withCr[0] then "\r" else "";
      assert lines[0] + "" == lines[0];
      WithoutCrLaw(lines[0]);
      FirstLine(lines[0] + cr, Terminated(lines[1..], withCr[1..]));
      LinesOfTerminated(lines[1..], withCr[1..]);
      assert lines == [lines[0]] + lines[1..];
    }
  }

  /** A data line carries its trimmed text, unless that is the end marker; any other line carries nothing. */
  lemma LinePayloadLaw(text: string, line: string, white: Space)
    ensures LinePayload("data: " + text, white)
         == if Trim(text, white) == "[DONE]" then [] else [Trim(text, white)]
    ensures |line| < 6 || line[..6] != "data: " ==> LinePayload(line, white) == []
  {
    assert ("data: " + text)[6..] == text;
  }

  /** What a server sends: every payload as an event of one data line, then the end marker. */
  function Stream(payloads: seq<string>): string {
    if |payloads| == 0 then "data: [DONE]\n\n" else "data: " + payloads[0] + "\n\n" + Stream(payloads[1..])
  }

  predicate IsPayload(p: string, white: Space) {
    '\n' !in p && Trim(p, white) == p && p != "[DONE]"
  }

  lemma OneLineEvent(text: string, tail: string, white: Space)
    requires '\n' !in text
    ensures Split("data: " + text + "\n\n" + tail)
         == Parts(["data: " + text] + Split(tail).events, Split(tail).rest)
    ensures PayloadsOfLines(Lines("data: " + text), white) == LinePayload("data: " + text, white)
  {
    hide Split, LinePayload, Lines, HasSeparator;
    var event := "data: " + text;
    assert '\n' !in event;
    SplitAtFirst(event, tail);
    FirstLine(event, "");
    assert PayloadsOfLines([event], white) == LinePayload(event, white) + [];
  }

  /** The reader takes exactly the payloads out of such a stream. */
  lemma {:induction false} PayloadsOfStream(payloads: seq<string>, white: Space)
    requires !white('[') && !white(']')
    requires forall i :: 0 <= i < |payloads| ==> IsPayload(payloads[i], white)
    ensures Split(Stream(payloads)).rest == ""
    ensures Payloads(Split(Stream(payloads)).events, white) == payloads
  {
    hide Split, LinePayload, Lines, PayloadsOfLines, HasSeparator, Trim;
    if |payloads| == 0 {
      TrimClean("[DONE]", white);
      assert "data: " + "[DONE]" + "\n\n" + "" == "data: [DONE]\n\n";
      OneLineEvent("[DONE]", "", white);
      LinePayloadLaw("[DONE]", "", white);
      assert !HasSeparator("") by { NoSeparatorInNothing(); }
      NothingToDrain("");
      OneEvent("data: " + "[DONE]", [], white);
    } else {
      OneLineEvent(payloads[0], Stream(payloads[1..]), white);
      LinePayloadLaw(payloads[0], "", white);
      PayloadsOfStream(payloads[1..], white);
      OneEvent("data: " + payloads[0], Split(Stream(payloads[1..])).events, white);
      assert payloads == [payloads[0]] + payloads[1..];
    }
  }

  lemma NoSeparatorInNothing()
    ensures !HasSeparator("")
  {
  }

  lemma OneEvent(event: string, rest: seq<string>, white: Space)
    ensures Payloads([event] + rest, white) == PayloadsOfLines(Lines(event), white) + Payloads(rest, white)
  {
    hide Lines, PayloadsOfLines;
    assert ([event] + rest)[1..] == rest;
  }

  // ---- Parse state ---------------------------------------------------------------

  datatype Usage = Usage(promptTokens: Option<nat>, completionTokens: Option<nat>, cachedTokens: Option<nat>)
  datatype Choice = Choice(content: Option<string>, finishReason: Option<string>)
  datatype SseChunk = SseChunk(choices: seq<Choice>, usage: Option<Usage>)

  /** JSON parsing of a payload; None when it is malformed. */
  type Parser = string -> Option<SseChunk>

  /** The fields of `ParseState`. */
  datatype Snapshot = Snapshot(firstToken: Option<int>, tokenTimes: seq<int>, chunkCount: nat, contentChars: nat,
                               finishReason: Option<string>, lastUsage: Option<Usage>)

  const U32: nat := 0x1_0000_0000

  const FRESH: Snapshot := Snapshot(None, [], 0, 0, None, None)

  /** The payload carries a token: a first choice with non-empty content. */
  predicate HasToken(c: Option<SseChunk>) {
    c.Some? && |c.value.choices| > 0 && c.value.choices[0].content.Some? && c.value.choices[0].content.value != ""
  }

  /** One payload handled at time `now`. */
  function Step(s: Snapshot, c: Option<SseChunk>, now: int): Snapshot {
    if c.None? then s
    else
      var s1 :=
        if HasToken(c) then
          s.(firstToken := if s.firstToken.None? then Some(now) else s.firstToken,
             tokenTimes := s.tokenTimes + [now],
             chunkCount := (s.chunkCount + 1) % U32,
             contentChars := s.contentChars + |c.value.choices[0].content.value|)
        else s;
      var s2 :=
        if |c.value.choices| > 0 && c.value.choices[0].finishReason.Some?
        then s1.(finishReason := c.value.choices[0].finishReason) else s1;
      if c.value.usage.Some? then s2.(lastUsage := c.value.usage) else s2
  }

  /** All payloads in order; the i-th call of `process_event` reads the clock at clock(i). */
  function Fold(s: Snapshot, payloads: seq<string>, parse: Parser, clock: nat -> int, calls: nat): Snapshot
    decreases |payloads|
  {
    if |payloads| == 0 then s
    else Fold(Step(s, parse(payloads[0]), clock(calls)), payloads[1..], parse, clock, calls + 1)
  }

  lemma {:induction false} FoldAppend(s: Snapshot, a: seq<string>, b: seq<string>, parse: Parser, clock: nat -> int,
                                      calls: nat)
    ensures Fold(s, a + b, parse, clock, calls)
         == Fold(Fold(s, a, parse, clock, calls), b, parse, clock, calls + |a|)
    decreases |a|
  {
    hide Step;
    if |a| == 0 {
      assert a + b == b;
    } else {
      assert (a + b)[1..] == a[1..] + b;
      FoldAppend(Step(s, parse(a[0]), clock(calls)), a[1..], b, parse, clock, calls + 1);
    }
  }

  // What a run of payloads leaves behind, said without the state: the contents of its tokens, its finish reasons
  // and its usage blocks, in order.

  function ContentOf(c: Option<SseChunk>): seq<string> {
    if c.Some? && |c.value.choices| > 0 && c.value.choices[0].content.Some? && |c.value.choices[0].content.value| > 0
    then [c.value.choices[0].content.value] else []
  }

  function ReasonOf(c: Option<SseChunk>): seq<string> {
    if c.Some? && |c.value.choices| > 0 && c.value.choices[0].finishReason.Some?
    then [c.value.choices[0].finishReason.value] else []
  }

  function UsageOf(c: Option<SseChunk>): seq<Usage> {
    if c.Some? && c.value.usage.Some? then [c.value.usage.value] else []
  }

  /** The parts that `pick` takes from every payload, joined. */
  function Collect<T>(payloads: seq<string>, parse: Parser, pick: Option<SseChunk> -> seq<T>): seq<T> {
    if |payloads| == 0 then [] else pick(parse(payloads[0])) + Collect(payloads[1..], parse, pick)
  }

  function LastOr<T>(s: seq<T>, default: Option<T>): Option<T> {
    if |s| == 0 then default else Some(s[|s| - 1])
  }

  function TotalLength(s: seq<string>): nat {
    if |s| == 0 then 0 else |s[0]| + TotalLength(s[1..])
  }

  lemma {:induction false} TotalLengthAppend(a: seq<string>, b: seq<string>)
    ensures TotalLength(a + b) == TotalLength(a) + TotalLength(b)
  {
    if |a| == 0 {
      assert a + b == b;
    } else {
      assert (a + b)[1..] == a[1..] + b;
      TotalLengthAppend(a[1..], b);
    }
  }

  /** The clock readings at the payloads that carry a token. */
  function TokenTimes(payloads: seq<string>, parse: Parser, clock: nat -> int, calls: nat): seq<int>
    decreases |payloads|
  {
    if |payloads| == 0 then []
    else
      (if |ContentOf(parse(payloads[0]))| > 0 then [clock(calls)] else [])
      + TokenTimes(payloads[1..], parse, clock, calls + 1)
  }

  lemma StepCollects(s: Snapshot, c: Option<SseChunk>, now: int)
    ensures var r := Step(s, c, now);
            && r.tokenTimes == s.tokenTimes + (if |ContentOf(c)| > 0 then [now] else []) && |ContentOf(c)| <= 1
            && r.contentChars == s.contentChars + TotalLength(ContentOf(c))
            && r.finishReason == LastOr(ReasonOf(c), s.finishReason)
            && r.lastUsage == LastOr(UsageOf(c), s.lastUsage)
  {
  }

  lemma LastOfAppend<T>(a: seq<T>, b: seq<T>, default: Option<T>)
    ensures LastOr(a + b, default) == LastOr(b, LastOr(a, default))
  {
  }

  lemma {:induction false} TimePerToken(payloads: seq<string>, parse: Parser, clock: nat -> int, calls: nat)
    ensures |TokenTimes(payloads, parse, clock, calls)| == |Collect(payloads, parse, ContentOf)|
    decreases |payloads|
  {
    if |payloads| > 0 {
      TimePerToken(payloads[1..], parse, clock, calls + 1);
      assert |ContentOf(parse(payloads[0]))| <= 1;
    }
  }

  lemma {:induction false} FoldTokenTimes(s: Snapshot, payloads: seq<string>, parse: Parser, clock: nat -> int,
                                          calls: nat)
    ensures Fold(s, payloads, parse, clock, calls).tokenTimes
         == s.tokenTimes + TokenTimes(payloads, parse, clock, calls)
    decreases |payloads|
  {
    hide Step, ContentOf;
    if |payloads| > 0 {
      var c, rest := parse(payloads[0]), payloads[1..];
      StepCollects(s, c, clock(calls));
      FoldTokenTimes(Step(s, c, clock(calls)), rest, parse, clock, calls + 1);
      var first := if |ContentOf(c)| > 0 then [clock(calls)] else [];
      var times := TokenTimes(rest, parse, clock, calls + 1);
      assert (s.tokenTimes + first) + times == s.tokenTimes + (first + times);
    }
  }

  lemma {:induction false} FoldSums(s: Snapshot, payloads: seq<string>, parse: Parser, clock: nat -> int, calls: nat)
    ensures var r := Fold(s, payloads, parse, clock, calls);
            && r.contentChars == s.contentChars + TotalLength(Collect(payloads, parse, ContentOf))
            && r.finishReason == LastOr(Collect(payloads, parse, ReasonOf), s.finishReason)
            && r.lastUsage == LastOr(Collect(payloads, parse, UsageOf), s.lastUsage)
    decreases |payloads|
  {
    hide Step, LastOr, ContentOf, ReasonOf, UsageOf, TotalLength;
    if |payloads| == 0 {
      NothingCollected(s);
    } else {
      var c, rest := parse(payloads[0]), payloads[1..];
      StepCollects(s, c, clock(calls));
      FoldSums(Step(s, c, clock(calls)), rest, parse, clock, calls + 1);
      TotalLengthAppend(ContentOf(c), Collect(rest, parse, ContentOf));
      LastOfAppend(ReasonOf(c), Collect(rest, parse, ReasonOf), s.finishReason);
      LastOfAppend(UsageOf(c), Collect(rest, parse, UsageOf), s.lastUsage);
    }
  }

  /** The state has the clock reading of every token, counts all their characters, and holds the last finish reason
      and the last usage block seen. */
  lemma FoldCollects(s: Snapshot, payloads: seq<string>, parse: Parser, clock: nat -> int, calls: nat)
    ensures var r := Fold(s, payloads, parse, clock, calls);
            && r.tokenTimes == s.tokenTimes + TokenTimes(payloads, parse, clock, calls)
            && |r.tokenTimes| == |s.tokenTimes| + |Collect(payloads, parse, ContentOf)|
            && r.contentChars == s.contentChars + TotalLength(Collect(payloads, parse, ContentOf))
            && r.finishReason == LastOr(Collect(payloads, parse, ReasonOf), s.finishReason)
            && r.lastUsage == LastOr(Collect(payloads, parse, UsageOf), s.lastUsage)
  {
    hide *;
    FoldTokenTimes(s, payloads, parse, clock, calls);
    TimePerToken(payloads, parse, clock, calls);
    FoldSums(s, payloads, parse, clock, calls);
  }

  lemma NothingCollected(s: Snapshot)
    ensures TotalLength([]) == 0
    ensures LastOr([], s.finishReason) == s.finishReason && LastOr([], s.lastUsage) == s.lastUsage
  {
  }

  /** The parse state the request loop owns. */
  class ParseState {
    var firstToken: Option<int>
    var tokenTimes: seq<int>
    var chunkCount: nat
    var contentChars: nat
    var finishReason: Option<string>
    var lastUsage: Option<Usage>

    constructor ()
      ensures Value() == FRESH
    {
      firstToken, tokenTimes, chunkCount, contentChars, finishReason, lastUsage := None, [], 0, 0, None, None;
    }

    function Value(): Snapshot
      reads this
    {
      Snapshot(firstToken, tokenTimes, chunkCount, contentChars, finishReason, lastUsage)
    }

    /** `process_event`. */
    method ProcessEvent(payload: string, parse: Parser, now: int)
      modifies this
      ensures Value() == Step(old(Value()), parse(payload), now)
    {
      var parsed := parse(payload);
      if parsed.None? { return; }
      if |parsed.value.choices| > 0 {
        var c := parsed.value.choices[0];
        if c.content.Some? {
          var content := c.content.value;
          if content != "" {
            if firstToken.None? { firstToken := Some(now); }
            tokenTimes := tokenTimes + [now];
            chunkCount := (chunkCount + 1) % U32;
            contentChars := contentChars + |content|;
          }
        }
        if c.finishReason.Some? { finishReason := c.finishReason; }
      }
      if parsed.value.usage.Some? { lastUsage := parsed.value.usage; }
    }
  }

  // ---- The reader ----------------------------------------------------------------

  /** The locals of the request loop: buffer, parse state, and how often the clock was read. */
  class Reader {
    const state: ParseState
    const parse: Parser
    const white: Space
    const clock: nat -> int
    var buffer: string
    var calls: nat
    /** Everything read so far. */
    ghost var text: string

    constructor (parse: Parser, white: Space, clock: nat -> int)
      ensures Valid() && fresh(state) && text == ""
      ensures this.parse == parse && this.white == white && this.clock == clock
    {
      this.parse, this.white, this.clock := parse, white, clock;
      state := new ParseState();
      buffer, calls, text := "", 0, "";
    }

    /** Buffer and state are those of one-shot splitting of everything read. */
    ghost predicate Valid()
      reads this, state
    {
      && buffer == Split(text).rest
      && calls == |Payloads(Split(text).events, white)|
      && state.Value() == Fold(FRESH, Payloads(Split(text).events, white), parse, clock, 0)
    }

    method HandleEvent(event: string)
      modifies this`calls, state
      ensures calls == old(calls) + |PayloadsOfLines(Lines(event), white)|
      ensures state.Value()
           == Fold(old(state.Value()), PayloadsOfLines(Lines(event), white), parse, clock, old(calls))
    {
      hide Step, Lines, LinePayload;
      var lines := Lines(event);
      ghost var all := PayloadsOfLines(lines, white);
      ghost var target := Fold(state.Value(), all, parse, clock, calls);
      assert lines[0..] == lines;
      for i := 0 to |lines|
        invariant calls + |PayloadsOfLines(lines[i..], white)| == old(calls) + |all|
        invariant Fold(state.Value(), PayloadsOfLines(lines[i..], white), parse, clock, calls) == target
      {
        var payloads := LinePayload(lines[i], white);
        ghost var rest := PayloadsOfLines(lines[i + 1..], white);
        assert lines[i..][1..] == lines[i + 1..];
        AtMostOnePayload(lines[i], white);
        if |payloads| > 0 {
          assert (payloads + rest)[1..] == rest;
          state.ProcessEvent(payloads[0], parse, clock(calls));
          calls := calls + 1;
        } else {
          assert payloads + rest == rest;
        }
      }
    }

    /** One chunk: append it to the buffer, then drain every complete event. */
    method Push(chunk: string)
      requires Valid()
      modifies this`buffer, this`calls, this`text, state
      ensures Valid() && text == old(text) + chunk
    {
      hide Split, HasSeparator, Payloads, Fold, Lines, PayloadsOfLines;
      ghost var events := Split(text).events;
      SplitAppend(text, chunk);
      text := text + chunk;
      buffer := buffer + chunk;
      ghost var done: seq<string> := events;
      assert done + Split(buffer).events == Split(text).events;
      while HasSeparator(buffer)
        invariant text == old(text) + chunk
        invariant done + Split(buffer).events == Split(text).events && Split(buffer).rest == Split(text).rest
        invariant calls == |Payloads(done, white)|
        invariant state.Value() == Fold(FRESH, Payloads(done, white), parse, clock, 0)
        decreases |buffer|
      {
        var endIdx := Find(buffer);
        var event := buffer[..endIdx];
        DrainOne(buffer);
        buffer := buffer[endIdx + 2..];
        HandleEvent(event);
        PayloadsOneMore(done, event, white);
        FoldAppend(FRESH, Payloads(done, white), PayloadsOfLines(Lines(event), white), parse, clock, 0);
        assert done + ([event] + Split(buffer).events) == (done + [event]) + Split(buffer).events;
        done := done + [event];
      }
      NothingToDrain(buffer);
      assert done + [] == done;
    }
  }

  lemma AtMostOnePayload(line: string, white: Space)
    ensures |LinePayload(line, white)| <= 1
  {
  }

  lemma DrainOne(s: string)
    requires HasSeparator(s)
    ensures Find(s) + 2 <= |s|
    ensures Split(s) == Parts([s[..Find(s)]] + Split(s[Find(s) + 2..]).events, Split(s[Find(s) + 2..]).rest)
  {
    hide HasSeparator, SeparatorAt, Find;
    FindInRange(s);
  }

  lemma NothingToDrain(s: string)
    requires !HasSeparator(s)
    ensures Split(s) == Parts([], s)
  {
  }

  lemma PayloadsOneMore(done: seq<string>, event: string, white: Space)
    ensures Payloads(done + [event], white) == Payloads(done, white) + PayloadsOfLines(Lines(event), white)
  {
    hide Lines, PayloadsOfLines;
    PayloadsAppend(done, [event], white);
    assert Payloads([event], white) == PayloadsOfLines(Lines(event), white) + Payloads([], white);
  }

  // ---- A whole response ----------------------------------------------------------

  ghost predicate EachDecodes(chunks: seq<seq<Byte>>) {
    forall i :: 0 <= i < |chunks| ==> Decode(chunks[i]).Some?
  }

  datatype Outcome = NonUtf8Chunk | Completed(state: Snapshot)

  /** The read loop of `run_chat_completion`: it fails at the first chunk that is not valid UTF-8 by itself; if
      there is none, the result is that of decoding and splitting the whole response at once, however it was cut. */
  method ReadResponse(chunks: seq<seq<Byte>>, parse: Parser, white: Space, clock: nat -> int)
    returns (outcome: Outcome)
    ensures outcome.Completed? <==> EachDecodes(chunks)
    ensures EachDecodes(chunks) ==> Decode(Concat(chunks)).Some?
    ensures EachDecodes(chunks) ==>
              outcome.state
              == Fold(FRESH, Payloads(Split(Decode(Concat(chunks)).value).events, white), parse, clock, 0)
  {
    hide Split, Payloads, Fold, Decode;
    var reader := new Reader(parse, white, clock);
    DecodeNothing();
    for i := 0 to |chunks|
      invariant fresh(reader) && fresh(reader.state) && reader.Valid()
      invariant reader.parse == parse && reader.white == white && reader.clock == clock
      invariant EachDecodes(chunks[..i])
      invariant Decode(Concat(chunks[..i])) == Some(reader.text)
    {
      var s := Decode(chunks[i]);
      if s.None? { return NonUtf8Chunk; }
      DecodeAppend(Concat(chunks[..i]), chunks[i]);
      assert chunks[..i + 1][..i] == chunks[..i];
      reader.Push(s.value);
    }
    assert chunks[..|chunks|] == chunks;
    outcome := Completed(reader.state.Value());
  }

  lemma DecodeNothing()
    ensures Decode([]) == Some("")
  {
  }

  /** A cut after n bytes splits no character: the next byte does not continue one. */
  predicate GoodCut(bytes: seq<Byte>, n: nat) {
    n < |bytes| ==> !IsContinuation(bytes[n])
  }

  /** When the response as a whole is valid, reading succeeds exactly when no chunk boundary is followed by a
      continuation byte. */
  lemma {:induction false} CutsBetweenCharacters(chunks: seq<seq<Byte>>)
    requires Decode(Concat(chunks)).Some?
    ensures EachDecodes(chunks) <==> forall i :: 0 <= i < |chunks| ==> GoodCut(Concat(chunks), |Concat(chunks[..i])|)
  {
    hide Decode, Concat, EachDecodes, GoodCut;
    EachDecodesByPrefix(chunks);
    forall i | 0 <= i < |chunks|
      ensures Decode(Concat(chunks[..i])).Some? <==> GoodCut(Concat(chunks), |Concat(chunks[..i])|)
    {
      CutIsPrefix(chunks, i);
    }
  }

  lemma CutIsPrefix(chunks: seq<seq<Byte>>, i: nat)
    requires Decode(Concat(chunks)).Some? && i <= |chunks|
    ensures Decode(Concat(chunks[..i])).Some? <==> GoodCut(Concat(chunks), |Concat(chunks[..i])|)
  {
    hide Decode, Concat;
    var bytes, n := Concat(chunks), |Concat(chunks[..i])|;
    ConcatPrefix(chunks, i);
    if n < |bytes| {
      PrefixDecodesIff(bytes, n);
    } else {
      assert bytes[..n] == bytes;
    }
  }

  lemma {:induction false} ConcatPrefix(chunks: seq<seq<Byte>>, i: nat)
    requires i <= |chunks|
    ensures |Concat(chunks[..i])| <= |Concat(chunks)|
    ensures Concat(chunks[..i]) == Concat(chunks)[..|Concat(chunks[..i])|]
  {
    if i < |chunks| {
      ConcatPrefix(chunks[..|chunks| - 1], i);
      assert chunks[..|chunks| - 1][..i] == chunks[..i];
    } else {
      assert chunks[..i] == chunks;
    }
  }

  /** Every chunk decodes by itself exactly when everything before each chunk does. */
  lemma {:induction false} EachDecodesByPrefix(chunks: seq<seq<Byte>>)
    requires Decode(Concat(chunks)).Some?
    ensures EachDecodes(chunks) <==> forall i :: 0 <= i < |chunks| ==> Decode(Concat(chunks[..i])).Some?
  {
    hide Decode;
    DecodeNothing();
    if EachDecodes(chunks) {
      forall i | 0 <= i < |chunks| ensures Decode(Concat(chunks[..i])).Some? { PrefixDecodes(chunks, i); }
    }
    if forall i :: 0 <= i < |chunks| ==> Decode(Concat(chunks[..i])).Some? {
      forall i | 0 <= i < |chunks| ensures Decode(chunks[i]).Some? {
        assert chunks[..i + 1][..i] == chunks[..i];
        DecodeAppend(Concat(chunks[..i]), chunks[i]);
        if i + 1 == |chunks| { assert chunks[..i + 1] == chunks; }
        assert Decode(Concat(chunks[..i + 1])).Some?;
      }
    }
  }

  lemma {:induction false} PrefixDecodes(chunks: seq<seq<Byte>>, i: nat)
    requires EachDecodes(chunks) && i <= |chunks|
    ensures Decode(Concat(chunks[..i])).Some?
  {
    hide Decode;
    DecodeNothing();
    if i > 0 {
      PrefixDecodes(chunks, i - 1);
      assert chunks[..i][..i - 1] == chunks[..i - 1];
      DecodeAppend(Concat(chunks[..i - 1]), chunks[i - 1]);
    }
  }

  /** A response cut inside a character is valid as a whole and still rejected: "é" in two chunks. */
  lemma CutInsideCharacterFails()
    ensures Decode(Concat([[0xC3], [0xA9]])).Some? && !EachDecodes([[0xC3], [0xA9]])
  {
  }

  /** What is left after a whole streamed response: one time per token payload, all their characters, the last
      finish reason and the last usage. */
  lemma StreamedResponse(payloads: seq<string>, parse: Parser, white: Space, clock: nat -> int)
    requires !white('[') && !white(']') && IsClock(clock)
    requires forall i :: 0 <= i < |payloads| ==> IsPayload(payloads[i], white)
    ensures var s := Fold(FRESH, Payloads(Split(Stream(payloads)).events, white), parse, clock, 0);
            var contents := Collect(payloads, parse, ContentOf);
            && s.tokenTimes == TokenTimes(payloads, parse, clock, 0)
            && s.firstToken == (if |s.tokenTimes| == 0 then None else Some(s.tokenTimes[0]))
            && s.chunkCount == |contents| % 0x1_0000_0000 && s.contentChars == TotalLength(contents)
            && s.finishReason == LastOr(Collect(payloads, parse, ReasonOf), None)
            && s.lastUsage == LastOr(Collect(payloads, parse, UsageOf), None)
  {
    hide Split, Payloads, Fold, Stream, TotalLength, Collect, TokenTimes;
    PayloadsOfStream(payloads, white);
    FoldCollects(FRESH, payloads, parse, clock, 0);
    FoldKeepsTimes(FRESH, payloads, parse, clock, 0);
  }

  // ---- Timings -------------------------------------------------------------------

  ghost predicate Sorted(s: seq<int>) {
    forall i, j :: 0 <= i < j < |s| ==> s[i] <= s[j]
  }

  /** The clock does not run backwards. */
  ghost predicate IsClock(clock: nat -> int) {
    forall i: nat, j: nat :: i <= j ==> clock(i) <= clock(j)
  }

  /** Token times, first token and chunk count agree. */
  ghost predicate TimesAgree(s: Snapshot) {
    && s.chunkCount == |s.tokenTimes| % 0x1_0000_0000
    && s.firstToken == (if |s.tokenTimes| == 0 then None else Some(s.tokenTimes[0]))
    && Sorted(s.tokenTimes)
  }

  lemma {:induction false} FoldKeepsTimes(s: Snapshot, payloads: seq<string>, parse: Parser, clock: nat -> int,
                                          calls: nat)
    requires TimesAgree(s) && IsClock(clock)
    requires forall i :: 0 <= i < |s.tokenTimes| ==> s.tokenTimes[i] <= clock(calls)
    ensures var r := Fold(s, payloads, parse, clock, calls);
            && TimesAgree(r)
            && (forall i :: 0 <= i < |r.tokenTimes| ==> r.tokenTimes[i] <= clock(calls + |payloads|))
            && s.tokenTimes <= r.tokenTimes
            && (forall i :: |s.tokenTimes| <= i < |r.tokenTimes| ==> clock(calls) <= r.tokenTimes[i])
    decreases |payloads|
  {
    if |payloads| > 0 {
      var s' := Step(s, parse(payloads[0]), clock(calls));
      StepTimes(s, parse(payloads[0]), clock(calls));
      assert clock(calls) <= clock(calls + 1);
      FoldKeepsTimes(s', payloads[1..], parse, clock, calls + 1);
    }
  }

  lemma StepTimes(s: Snapshot, c: Option<SseChunk>, now: int)
    requires TimesAgree(s) && forall i :: 0 <= i < |s.tokenTimes| ==> s.tokenTimes[i] <= now
    ensures TimesAgree(Step(s, c, now))
    ensures Step(s, c, now).tokenTimes == if HasToken(c) then s.tokenTimes + [now] else s.tokenTimes
  {
  }

  /** `RequestTimings`. */
  datatype RequestTimings = RequestTimings(start: int, firstToken: Option<int>, tokenTimes: seq<int>, end: int)

  /** `duration_since`: zero when the other moment is later. */
  function Since(later: int, earlier: int): nat {
    if later < earlier then 0 else later - earlier
  }

  function Ttft(t: RequestTimings): nat {
    Since(if t.firstToken.Some? then t.firstToken.value else t.end, t.start)
  }

  function E2e(t: RequestTimings): nat {
    Since(t.end, t.start)
  }

  function GenDuration(t: RequestTimings): nat {
    Since(t.end, if t.firstToken.Some? then t.firstToken.value else t.start)
  }

  /** For any payloads, malformed ones included, read between start and end: the times agree, and the time to the
      first token and the generation time add up to the whole exactly when a token was seen or nothing took time. */
  lemma TimingsAddUp(payloads: seq<string>, parse: Parser, clock: nat -> int, start: int, end: int)
    requires IsClock(clock) && start <= clock(0) && clock(|payloads|) <= end
    ensures var s := Fold(FRESH, payloads, parse, clock, 0);
            var t := RequestTimings(start, s.firstToken, s.tokenTimes, end);
            && TimesAgree(s)
            && E2e(t) == end - start
            && Ttft(t) == (if |s.tokenTimes| > 0 then s.tokenTimes[0] else end) - start
            && (Ttft(t) + GenDuration(t) == E2e(t) <==> s.firstToken.Some? || start == end)
  {
    hide Fold;
    FoldKeepsTimes(FRESH, payloads, parse, clock, 0);
    assert clock(0) <= clock(|payloads|);
  }
}
