/** Redaction of streamed text (services/ai/ai_guardrails.py, StreamRedactor): the last HOLD
    characters are held back, cut at whitespace and never inside a match. */
module StreamRedaction {
  import opened Redaction
  import opened PatternScan

  const HOLD: nat := 256
  const MAX_BUFFER: nat := 8192

  predicate IsBreak(c: char) { c == ' ' || c == '\n' }

  /** `text.rfind(c, 0, upTo)` */
  function RFind(text: string, c: char, upTo: nat): (i: int)
    requires upTo <= |text|
    ensures -1 <= i < upTo
    ensures i >= 0 ==> text[i] == c
    ensures forall j | i < j < upTo :: text[j] != c
  {
    if upTo == 0 then -1 else if text[upTo - 1] == c then upTo - 1 else RFind(text, c, upTo - 1)
  }

  function Max(a: int, b: int): int { if a < b then b else a }

  /** Where the redactor would like to cut, before looking at the matches; 0 means nothing is released. */
  function WantedCut(buffer: string): (cut: nat)
    ensures cut > 0 ==> cut + HOLD <= |buffer|
    ensures 0 < cut && |buffer| < MAX_BUFFER ==> IsBreak(buffer[cut])
    ensures |buffer| >= MAX_BUFFER ==> cut == |buffer| - HOLD
  {
    if |buffer| <= HOLD then 0
    else
      var cut := |buffer| - HOLD;
      if |buffer| < MAX_BUFFER then
        var space := Max(RFind(buffer, ' ', cut), RFind(buffer, '\n', cut));
        if space <= 0 then 0 else space
      else cut
  }

  /** The first span that the cut falls inside moves the cut back to its start. */
  function PullBack(spans: seq<Span>, cut: nat): nat {
    if spans == [] then cut
    else if spans[0].start < cut < spans[0].end then spans[0].start
    else PullBack(spans[1..], cut)
  }

  function Cut(rules: seq<Rule>, buffer: string): nat
    requires RulesOk(rules, buffer)
  {
    if WantedCut(buffer) == 0 then 0 else PullBack(SpansOf(rules, buffer), WantedCut(buffer))
  }

  ghost predicate InsideSome(spans: seq<Span>, cut: nat) {
    exists i :: 0 <= i < |spans| && spans[i].start < cut < spans[i].end
  }

  ghost predicate StartsSome(spans: seq<Span>, cut: nat) {
    exists i :: 0 <= i < |spans| && spans[i].start == cut
  }

  lemma {:induction false} PullBackCorrect(spans: seq<Span>, cut: nat, length: nat)
    requires Ordered(spans) && InBounds(spans, length)
    ensures var c := PullBack(spans, cut);
            && c <= cut && !InsideSome(spans, c)
            && (c != cut ==> exists i :: 0 <= i < |spans| && spans[i].start == c && cut < spans[i].end)
  {
    if spans == [] {
    } else if spans[0].start < cut < spans[0].end {
      assert spans[0].start == PullBack(spans, cut);
    } else {
      var tail := spans[1..];
      PullBackCorrect(tail, cut, length);
      var c := PullBack(tail, cut);
      if c != cut {
        var i :| 0 <= i < |tail| && tail[i].start == c && cut < tail[i].end;
        assert spans[i + 1] == tail[i];
      }
      forall i | 0 <= i < |spans| ensures !(spans[i].start < c < spans[i].end) {
        if i > 0 {
          assert spans[i] == tail[i - 1];
        }
      }
    }
  }

  /** The chosen cut leaves at least HOLD characters, is at whitespace or at the start of a span,
      and is never strictly inside a span; when whitespace was not looked for (a full buffer), a
      cut that had to move back starts a match reaching into the last HOLD characters. */
  lemma CutCorrect(rules: seq<Rule>, buffer: string)
    requires RulesOk(rules, buffer)
    ensures var cut, spans := Cut(rules, buffer), SpansOf(rules, buffer);
            && cut <= |buffer| && !InsideSome(spans, cut)
            && (cut > 0 ==> cut + HOLD <= |buffer|)
            && (0 < cut && |buffer| < MAX_BUFFER ==> IsBreak(buffer[cut]) || StartsSome(spans, cut))
            && (|buffer| >= MAX_BUFFER && cut != |buffer| - HOLD ==>
                  exists i :: 0 <= i < |spans| && spans[i].start == cut && |buffer| - HOLD < spans[i].end)
  {
    SpansCorrect(rules, buffer);
    var spans := SpansOf(rules, buffer);
    if WantedCut(buffer) > 0 {
      PullBackCorrect(spans, WantedCut(buffer), |buffer|);
    }
  }

  // ---- Joining outputs ----

  function MergeCounts(a: map<string, nat>, b: map<string, nat>): map<string, nat> {
    map k | k in a.Keys + b.Keys :: (if k in a then a[k] else 0) + (if k in b then b[k] else 0)
  }

  function Join(a: Redacted, b: Redacted): Redacted {
    Redacted(a.text + b.text, MergeCounts(a.counts, b.counts))
  }

  const NOTHING := Redacted("", map[])

  lemma JoinAssoc(a: Redacted, b: Redacted, c: Redacted)
    ensures Join(Join(a, b), c) == Join(a, Join(b, c))
  {
    assert a.text + b.text + c.text == a.text + (b.text + c.text);
    assert MergeCounts(MergeCounts(a.counts, b.counts), c.counts) ==
           MergeCounts(a.counts, MergeCounts(b.counts, c.counts));
  }

  lemma JoinNothing(a: Redacted)
    ensures Join(NOTHING, a) == a && Join(a, NOTHING) == a
  {
    assert "" + a.text == a.text && a.text + "" == a.text;
    assert MergeCounts(map[], a.counts) == a.counts && MergeCounts(a.counts, map[]) == a.counts;
  }

  // ---- Runs over a sequence of chunks ----

  function Concat(chunks: seq<string>): string {
    if chunks == [] then "" else chunks[0] + Concat(chunks[1..])
  }

  /** Everything a redactor whose buffer is `buffer` still puts out: one feed per chunk, then flush. */
  ghost function Stream(rules: seq<Rule>, buffer: string, chunks: seq<string>): Redacted
    requires WellFormed(rules)
    decreases |chunks|
  {
    if chunks == [] then Redact(rules, buffer)
    else
      var b := buffer + chunks[0];
      CutCorrect(rules, b);
      Join(Redact(rules, b[..Cut(rules, b)]), Stream(rules, b[Cut(rules, b)..], chunks[1..]))
  }

  /** No feed of the run lets the buffer reach MAX_BUFFER. */
  ghost predicate StaysUnder(rules: seq<Rule>, buffer: string, chunks: seq<string>)
    requires WellFormed(rules)
    decreases |chunks|
  {
    chunks != [] ==>
      var b := buffer + chunks[0];
      CutCorrect(rules, b);
      |b| < MAX_BUFFER && StaysUnder(rules, b[Cut(rules, b)..], chunks[1..])
  }

  ghost predicate StreamingIsBatch(rules: seq<Rule>)
    requires WellFormed(rules)
  {
    forall chunks | StaysUnder(rules, "", chunks) :: Stream(rules, "", chunks) == Redact(rules, Concat(chunks))
  }

  /** Redacting the two sides of the cut of `buffer` separately gives what redacting them together gives. */
  ghost predicate CutSplits(rules: seq<Rule>, buffer: string, rest: seq<string>)
    requires WellFormed(rules)
  {
    CutCorrect(rules, buffer);
    var cut := Cut(rules, buffer);
    Redact(rules, buffer + Concat(rest)) ==
        Join(Redact(rules, buffer[..cut]), Redact(rules, buffer[cut..] + Concat(rest)))
  }

  ghost predicate EveryCutSplits(rules: seq<Rule>)
    requires WellFormed(rules)
  {
    forall buffer: string, rest: seq<string> |
      |buffer| < MAX_BUFFER && StaysUnder(rules, buffer[SafeCut(rules, buffer)..], rest) ::
          CutSplits(rules, buffer, rest)
  }

  ghost function SafeCut(rules: seq<Rule>, buffer: string): (cut: nat)
    requires WellFormed(rules)
    ensures cut == Cut(rules, buffer) <= |buffer|
  {
    CutCorrect(rules, buffer);
    Cut(rules, buffer)
  }

  lemma {:induction false} SplitsGiveBatch(rules: seq<Rule>, buffer: string, chunks: seq<string>)
    requires WellFormed(rules) && EveryCutSplits(rules) && StaysUnder(rules, buffer, chunks)
    ensures Stream(rules, buffer, chunks) == Redact(rules, buffer + Concat(chunks))
    decreases |chunks|
  {
    if chunks == [] {
      EmptyPrefix(buffer);
    } else {
      var b := buffer + chunks[0];
      var cut := SafeCut(rules, b);
      SplitsGiveBatch(rules, b[cut..], chunks[1..]);
      assert CutSplits(rules, b, chunks[1..]);
      Assoc(buffer, chunks[0], Concat(chunks[1..]));
    }
  }

  lemma EmptyPrefix(text: string)
    ensures "" + text == text && text + "" == text
  {
  }

  lemma FirstChunk(chunk: string, rest: seq<string>)
    ensures ([chunk] + rest)[0] == chunk && ([chunk] + rest)[1..] == rest
    ensures Concat([chunk] + rest) == chunk + Concat(rest)
  {
    assert ([chunk] + rest)[1..] == rest;
  }

  /** A run that starts with a full buffer is a run from the empty one whose first chunk is longer. */
  lemma MoveIntoFirstChunk(rules: seq<Rule>, buffer: string, chunks: seq<string>)
    requires WellFormed(rules) && chunks != []
    ensures var moved := [buffer + chunks[0]] + chunks[1..];
            && Stream(rules, "", moved) == Stream(rules, buffer, chunks)
            && (StaysUnder(rules, "", moved) <==> StaysUnder(rules, buffer, chunks))
            && Concat(moved) == buffer + Concat(chunks)
  {
    var moved := [buffer + chunks[0]] + chunks[1..];
    FirstChunk(buffer + chunks[0], chunks[1..]);
    EmptyPrefix(buffer + chunks[0]);
    Assoc(buffer, chunks[0], Concat(chunks[1..]));
  }

  lemma BatchGivesRest(rules: seq<Rule>, buffer: string, rest: seq<string>)
    requires WellFormed(rules) && StreamingIsBatch(rules) && StaysUnder(rules, buffer, rest)
    ensures Stream(rules, buffer, rest) == Redact(rules, buffer + Concat(rest))
  {
    if rest == [] {
      EmptyPrefix(buffer);
    } else {
      MoveIntoFirstChunk(rules, buffer, rest);
    }
  }

  lemma StreamCons(rules: seq<Rule>, buffer: string, rest: seq<string>)
    requires WellFormed(rules)
    ensures var cut := SafeCut(rules, buffer);
            && Stream(rules, "", [buffer] + rest) ==
               Join(Redact(rules, buffer[..cut]), Stream(rules, buffer[cut..], rest))
            && (StaysUnder(rules, "", [buffer] + rest) <==>
               |buffer| < MAX_BUFFER && StaysUnder(rules, buffer[cut..], rest))
  {
    EmptyPrefix(buffer);
    FirstChunk(buffer, rest);
  }

  lemma BatchGivesSplits(rules: seq<Rule>, buffer: string, rest: seq<string>)
    requires WellFormed(rules) && StreamingIsBatch(rules)
    requires |buffer| < MAX_BUFFER && StaysUnder(rules, buffer[SafeCut(rules, buffer)..], rest)
    ensures CutSplits(rules, buffer, rest)
  {
    StreamCons(rules, buffer, rest);
    FirstChunk(buffer, rest);
    BatchGivesRest(rules, buffer[SafeCut(rules, buffer)..], rest);
  }

  /** Streaming agrees with batch redaction on every chunking if and only if every cut the redactor
      chooses splits the redaction of every continuation. */
  lemma StreamingIsBatchIffCutsSplit(rules: seq<Rule>)
    requires WellFormed(rules)
    ensures StreamingIsBatch(rules) <==> EveryCutSplits(rules)
  {
    if EveryCutSplits(rules) {
      forall chunks | StaysUnder(rules, "", chunks) ensures Stream(rules, "", chunks) == Redact(rules, Concat(chunks)) {
        SplitsGiveBatch(rules, "", chunks);
        EmptyPrefix(Concat(chunks));
      }
    }
    if StreamingIsBatch(rules) {
      forall buffer: string, rest: seq<string> |
        |buffer| < MAX_BUFFER && StaysUnder(rules, buffer[SafeCut(rules, buffer)..], rest)
        ensures CutSplits(rules, buffer, rest)
      {
        BatchGivesSplits(rules, buffer, rest);
      }
    }
  }

  // ---- Spans on the two sides of a cut ----

  function Shift(spans: seq<Span>, offset: nat): seq<Span> {
    seq(|spans|, i requires 0 <= i < |spans| => Span(spans[i].start + offset, spans[i].end + offset, spans[i].kind))
  }

  ghost predicate SpansSplit(rules: seq<Rule>, text: string, cut: nat)
    requires WellFormed(rules) && cut <= |text|
  {
    && RulesOk(rules, text) && RulesOk(rules, text[..cut]) && RulesOk(rules, text[cut..])
    && SpansOf(rules, text) == SpansOf(rules, text[..cut]) + Shift(SpansOf(rules, text[cut..]), cut)
  }

  lemma ShiftMembers(spans: seq<Span>, offset: nat, t: Span)
    ensures t in Shift(spans, offset) <==>
            t.start >= offset && t.end >= offset && Span(t.start - offset, t.end - offset, t.kind) in spans
  {
    if t.start >= offset && t.end >= offset && Span(t.start - offset, t.end - offset, t.kind) in spans {
      var i :| 0 <= i < |spans| && spans[i] == Span(t.start - offset, t.end - offset, t.kind);
      assert Shift(spans, offset)[i] == t;
    }
    if t in Shift(spans, offset) {
      var i :| 0 <= i < |spans| && Shift(spans, offset)[i] == t;
      assert spans[i] in spans;
    }
  }

  lemma JoinInOrder(left: seq<Span>, right: seq<Span>, cut: nat, length: nat)
    requires cut <= length && Ordered(left) && InBounds(left, cut) && Ordered(right) && InBounds(right, length - cut)
    ensures Ordered(left + Shift(right, cut)) && InBounds(left + Shift(right, cut), length)
  {
  }

  lemma TailInOrder(spans: seq<Span>, length: nat)
    requires spans != [] && InBounds(spans, length) && Ordered(spans)
    ensures InBounds(spans[1..], length) && Ordered(spans[1..])
    ensures spans[1..] != [] ==> spans[0].end <= spans[1..][0].start
    ensures spans[0].start < spans[0].end <= length
  {
  }

  lemma SliceOfSuffix(text: string, cut: nat, a: nat, b: nat)
    requires cut <= |text| && a <= b <= |text| - cut
    ensures text[a + cut..b + cut] == text[cut..][a..b]
  {
  }

  lemma SuffixOfSuffix(text: string, cut: nat, a: nat)
    requires a + cut <= |text|
    ensures text[a + cut..] == text[cut..][a..]
  {
  }

  /** `shifted` is `spans` moved to the right by `offset`. */
  ghost predicate IsShift(shifted: seq<Span>, spans: seq<Span>, offset: nat) {
    && |shifted| == |spans|
    && (spans != [] ==> shifted[0] == Span(spans[0].start + offset, spans[0].end + offset, spans[0].kind)
                        && IsShift(shifted[1..], spans[1..], offset))
  }

  lemma {:induction false} ShiftIsShift(spans: seq<Span>, offset: nat)
    ensures IsShift(Shift(spans, offset), spans, offset)
  {
    if spans != [] {
      assert Shift(spans, offset)[1..] == Shift(spans[1..], offset);
      ShiftIsShift(spans[1..], offset);
    }
  }

  /** The readable stretches between the spans, and after them. */
  ghost predicate SameStretches(text: string, spans: seq<Span>, pos: nat, text': string, spans': seq<Span>, pos': nat)
    requires pos <= |text| && InBounds(spans, |text|) && Ordered(spans) && (spans != [] ==> pos <= spans[0].start)
    requires pos' <= |text'| && InBounds(spans', |text'|) && Ordered(spans')
             && (spans' != [] ==> pos' <= spans'[0].start)
    decreases |spans|
  {
    && |spans| == |spans'|
    && if spans == [] then text[pos..] == text'[pos'..] else
         TailInOrder(spans, |text|);
         TailInOrder(spans', |text'|);
         && spans[0].kind == spans'[0].kind
         && text[pos..spans[0].start] == text'[pos'..spans'[0].start]
         && SameStretches(text, spans[1..], spans[0].end, text', spans'[1..], spans'[0].end)
  }

  lemma {:induction false} SameStretchesRenderAlike(
    text: string, spans: seq<Span>, pos: nat, text': string, spans': seq<Span>, pos': nat)
    requires pos <= |text| && InBounds(spans, |text|) && Ordered(spans) && (spans != [] ==> pos <= spans[0].start)
    requires pos' <= |text'| && InBounds(spans', |text'|) && Ordered(spans')
             && (spans' != [] ==> pos' <= spans'[0].start)
    requires SameStretches(text, spans, pos, text', spans', pos')
    ensures Render(text, spans, pos) == Render(text', spans', pos')
    decreases |spans|
  {
    if spans != [] {
      TailInOrder(spans, |text|);
      TailInOrder(spans', |text'|);
      SameStretchesRenderAlike(text, spans[1..], spans[0].end, text', spans'[1..], spans'[0].end);
    }
  }

  lemma {:induction false} ShiftedStretches(
    text: string, cut: nat, suffix: string, spans: seq<Span>, shifted: seq<Span>, pos: nat)
    requires cut <= |text| && suffix == text[cut..] && pos <= |suffix|
    requires InBounds(spans, |suffix|) && Ordered(spans) && (spans != [] ==> pos <= spans[0].start)
    requires IsShift(shifted, spans, cut) && InBounds(shifted, |text|) && Ordered(shifted)
    ensures SameStretches(text, shifted, pos + cut, suffix, spans, pos)
    decreases |spans|
  {
    if spans == [] {
      SuffixOfSuffix(text, cut, pos);
    } else {
      TailInOrder(spans, |suffix|);
      TailInOrder(shifted, |text|);
      ShiftedStretches(text, cut, suffix, spans[1..], shifted[1..], spans[0].end);
      SliceOfSuffix(text, cut, pos, spans[0].start);
    }
  }

  lemma ConcatTail(left: seq<Span>, right: seq<Span>)
    requires left != []
    ensures (left + right)[0] == left[0] && (left + right)[1..] == left[1..] + right
  {
  }

  lemma SliceOfPrefix(text: string, cut: nat, a: nat, b: nat)
    requires a <= b <= cut <= |text|
    ensures text[..cut][a..b] == text[a..b]
  {
  }

  /** Rendering two groups of spans on either side of a cut renders the two sides. */
  lemma {:induction false} RenderSplits(text: string, cut: nat, left: seq<Span>, right: seq<Span>, pos: nat)
    requires pos <= cut <= |text| && InBounds(left, cut) && Ordered(left) && (left != [] ==> pos <= left[0].start)
    requires InBounds(right, |text| - cut) && Ordered(right)
    requires InBounds(left + Shift(right, cut), |text|) && Ordered(left + Shift(right, cut))
    ensures Render(text, left + Shift(right, cut), pos) ==
            Render(text[..cut], left, pos) + Render(text[cut..], right, 0)
    decreases |left|
  {
    var all := left + Shift(right, cut);
    if left == [] {
      assert all == Shift(right, cut);
      RenderFromMiddle(text, cut, right, pos);
    } else {
      var s, tail := left[0], left[1..];
      ConcatTail(left, Shift(right, cut));
      TailInOrder(all, |text|);
      TailInOrder(left, cut);
      RenderSplits(text, cut, tail, right, s.end);
      SliceOfPrefix(text, cut, pos, s.start);
      Assoc(text[pos..s.start] + Placeholder(s.kind), Render(text[..cut], tail, s.end), Render(text[cut..], right, 0));
    }
  }

  lemma RenderFromMiddle(text: string, cut: nat, right: seq<Span>, pos: nat)
    requires pos <= cut <= |text| && InBounds(right, |text| - cut) && Ordered(right)
    requires InBounds(Shift(right, cut), |text|) && Ordered(Shift(right, cut))
    ensures Render(text, Shift(right, cut), pos) == text[..cut][pos..] + Render(text[cut..], right, 0)
  {
    ShiftIsShift(right, cut);
    ShiftedStretches(text, cut, text[cut..], right, Shift(right, cut), 0);
    SameStretchesRenderAlike(text, Shift(right, cut), cut, text[cut..], right, 0);
    var shifted := Shift(right, cut);
    if right == [] {
      assert text[pos..] == text[..cut][pos..] + text[cut..][0..];
    } else {
      var s := shifted[0];
      assert text[pos..s.start] == text[..cut][pos..] + text[cut..s.start];
      var rest := Placeholder(s.kind) + Render(text, shifted[1..], s.end);
      Assoc(text[pos..s.start], Placeholder(s.kind), Render(text, shifted[1..], s.end));
      Assoc(text[cut..s.start], Placeholder(s.kind), Render(text, shifted[1..], s.end));
      Assoc(text[..cut][pos..], text[cut..s.start], rest);
    }
  }

  lemma {:induction false} KindCountConcat(a: seq<Span>, b: seq<Span>, k: string)
    ensures KindCount(a + b, k) == KindCount(a, k) + KindCount(b, k)
    decreases |b|
  {
    if b == [] {
      assert a + b == a;
    } else {
      assert (a + b)[..|a + b| - 1] == a + b[..|b| - 1];
      KindCountConcat(a, b[..|b| - 1], k);
    }
  }

  lemma {:induction false} KindCountShift(spans: seq<Span>, offset: nat, k: string)
    ensures KindCount(Shift(spans, offset), k) == KindCount(spans, k)
  {
    if spans != [] {
      assert Shift(spans, offset)[..|spans| - 1] == Shift(spans[..|spans| - 1], offset);
      KindCountShift(spans[..|spans| - 1], offset, k);
    }
  }

  lemma KindsOfParts(a: seq<Span>, b: seq<Span>, offset: nat)
    ensures Kinds(a + Shift(b, offset)) == Kinds(a) + Kinds(b)
  {
    var all := a + Shift(b, offset);
    forall k ensures k in Kinds(all) <==> k in Kinds(a) + Kinds(b) {
      if k in Kinds(a) {
        var i :| 0 <= i < |a| && a[i].kind == k;
        assert all[i].kind == k;
      }
      if k in Kinds(b) {
        var i :| 0 <= i < |b| && b[i].kind == k;
        assert all[|a| + i].kind == k;
      }
    }
  }

  lemma CountOrZero(spans: seq<Span>, k: string)
    ensures KindCount(spans, k) == if k in CountsOf(spans) then CountsOf(spans)[k] else 0
  {
    if k !in Kinds(spans) {
      forall i | 0 <= i < |spans| ensures spans[i].kind != k {
        assert spans[i].kind in Kinds(spans);
      }
      NoneCounted(spans, k);
    }
  }

  lemma CountsSplit(a: seq<Span>, b: seq<Span>, offset: nat)
    ensures CountsOf(a + Shift(b, offset)) == MergeCounts(CountsOf(a), CountsOf(b))
  {
    KindsOfParts(a, b, offset);
    forall k | k in Kinds(a) + Kinds(b)
      ensures CountsOf(a + Shift(b, offset))[k] == MergeCounts(CountsOf(a), CountsOf(b))[k]
    {
      KindCountConcat(a, Shift(b, offset), k);
      KindCountShift(b, offset, k);
      CountOrZero(a, k);
      CountOrZero(b, k);
    }
  }

  lemma SplitSpansSplitRedaction(rules: seq<Rule>, text: string, cut: nat)
    requires WellFormed(rules) && cut <= |text| && SpansSplit(rules, text, cut)
    ensures Redact(rules, text) == Join(Redact(rules, text[..cut]), Redact(rules, text[cut..]))
  {
    SpansCorrect(rules, text);
    SpansCorrect(rules, text[..cut]);
    SpansCorrect(rules, text[cut..]);
    var left, right := SpansOf(rules, text[..cut]), SpansOf(rules, text[cut..]);
    RenderSplits(text, cut, left, right, 0);
    CountsSplit(left, right, cut);
  }

  lemma CutOfConcat(buffer: string, more: string, cut: nat)
    requires cut <= |buffer|
    ensures (buffer + more)[..cut] == buffer[..cut] && (buffer + more)[cut..] == buffer[cut..] + more
  {
  }

  // ---- Clean cuts ----

  /** Searching the two sides of the cut finds the matches of the whole text. */
  ghost predicate FindSplits(rule: Rule, text: string, cut: nat)
    requires cut <= |text|
  {
    rule.find(text) == rule.find(text[..cut]) + ShiftMatches(rule.find(text[cut..]), cut)
  }

  /** A match of the whole text, seen from the side it is on. */
  lemma MatchOnItsSide(rule: Rule, text: string, cut: nat, m: (nat, nat))
    requires cut <= |text| && FindSplits(rule, text, cut)
    requires MatchesOk(rule.find(text[..cut]), cut) && MatchesOk(rule.find(text[cut..]), |text| - cut)
    ensures m in rule.find(text) <==>
            m in rule.find(text[..cut])
            || (cut <= m.0 && cut <= m.1 && (m.0 - cut, m.1 - cut) in rule.find(text[cut..]))
    ensures m in rule.find(text[..cut]) ==> m.1 <= cut
  {
    var right := rule.find(text[cut..]);
    var shifted := ShiftMatches(right, cut);
    if m in shifted {
      var k :| 0 <= k < |shifted| && shifted[k] == m;
      assert right[k] == (m.0 - cut, m.1 - cut);
    }
    if cut <= m.0 && cut <= m.1 && (m.0 - cut, m.1 - cut) in right {
      var k :| 0 <= k < |right| && right[k] == (m.0 - cut, m.1 - cut);
      assert shifted[k] == m;
    }
  }

  function Back(s: Span, cut: nat): Span
    requires cut <= s.start && cut <= s.end
  {
    Span(s.start - cut, s.end - cut, s.kind)
  }

  lemma SliceOnItsSide(text: string, cut: nat, a: nat, b: nat)
    requires cut <= |text| && a <= b <= |text|
    ensures b <= cut ==> text[..cut][a..b] == text[a..b]
    ensures cut <= a ==> text[cut..][a - cut..b - cut] == text[a..b]
  {
  }

  ghost predicate EveryFindSplits(rules: seq<Rule>, text: string, cut: nat)
    requires cut <= |text|
  {
    forall r | 0 <= r < |rules| :: FindSplits(rules[r], text, cut)
  }

  lemma RedactableOnItsSide(rules: seq<Rule>, text: string, cut: nat, r: nat, s: Span)
    requires WellFormed(rules) && cut <= |text| && r < |rules| && FindSplits(rules[r], text, cut)
    requires RulesOk(rules, text) && RulesOk(rules, text[..cut]) && RulesOk(rules, text[cut..])
    ensures Redactable(rules, text, r, s) <==>
            Redactable(rules, text[..cut], r, s)
            || (cut <= s.start && cut <= s.end && Redactable(rules, text[cut..], r, Back(s, cut)))
  {
    MatchOnItsSide(rules[r], text, cut, (s.start, s.end));
    if s.start < s.end <= |text| {
      SliceOnItsSide(text, cut, s.start, s.end);
    }
  }

  lemma LeftIsSound(rules: seq<Rule>, text: string, cut: nat, t: Span)
    requires WellFormed(rules) && cut <= |text| && EveryFindSplits(rules, text, cut)
    requires RulesOk(rules, text) && RulesOk(rules, text[..cut]) && RulesOk(rules, text[cut..])
    requires t in SpansOf(rules, text[..cut])
    ensures exists q: nat :: q < |rules| && Redactable(rules, text, q, t)
  {
    SpansCorrect(rules, text[..cut]);
    var q: nat :| q < |rules| && Redactable(rules, text[..cut], q, t);
    RedactableOnItsSide(rules, text, cut, q, t);
  }

  lemma RightIsSound(rules: seq<Rule>, text: string, cut: nat, t: Span)
    requires WellFormed(rules) && cut <= |text| && EveryFindSplits(rules, text, cut)
    requires RulesOk(rules, text) && RulesOk(rules, text[..cut]) && RulesOk(rules, text[cut..])
    requires cut <= t.start && cut <= t.end && Back(t, cut) in SpansOf(rules, text[cut..])
    ensures exists q: nat :: q < |rules| && Redactable(rules, text, q, t)
  {
    SpansCorrect(rules, text[cut..]);
    var q: nat :| q < |rules| && Redactable(rules, text[cut..], q, Back(t, cut));
    RedactableOnItsSide(rules, text, cut, q, t);
  }

  lemma JoinedIsSound(rules: seq<Rule>, text: string, cut: nat)
    requires WellFormed(rules) && cut <= |text| && EveryFindSplits(rules, text, cut)
    requires RulesOk(rules, text) && RulesOk(rules, text[..cut]) && RulesOk(rules, text[cut..])
    ensures Sound(rules, text, |rules|, SpansOf(rules, text[..cut]) + Shift(SpansOf(rules, text[cut..]), cut))
  {
    var left, right := SpansOf(rules, text[..cut]), SpansOf(rules, text[cut..]);
    forall t | t in left + Shift(right, cut) ensures exists q: nat :: q < |rules| && Redactable(rules, text, q, t) {
      ShiftMembers(right, cut, t);
      if t in left {
        LeftIsSound(rules, text, cut, t);
      } else {
        RightIsSound(rules, text, cut, t);
      }
    }
  }

  lemma CoveredOnTheLeft(rules: seq<Rule>, text: string, cut: nat, r: nat, s: Span)
    requires WellFormed(rules) && cut <= |text| && EveryFindSplits(rules, text, cut) && r < |rules|
    requires RulesOk(rules, text) && RulesOk(rules, text[..cut]) && RulesOk(rules, text[cut..])
    requires Redactable(rules, text[..cut], r, s)
    ensures Covered(rules, text, r, s, SpansOf(rules, text[..cut]) + Shift(SpansOf(rules, text[cut..]), cut))
  {
    var left := SpansOf(rules, text[..cut]);
    SpansCorrect(rules, text[..cut]);
    assert Covered(rules, text[..cut], r, s, left);
    if s !in left {
      var q: nat, t: Span :| q < r && t in left && Overlaps(s, t) && Redactable(rules, text[..cut], q, t);
      RedactableOnItsSide(rules, text, cut, q, t);
    }
  }

  lemma BlockedOnTheRight(rules: seq<Rule>, text: string, cut: nat, r: nat, s: Span) returns (q: nat, t: Span)
    requires WellFormed(rules) && cut <= |text| && EveryFindSplits(rules, text, cut) && r < |rules|
    requires RulesOk(rules, text) && RulesOk(rules, text[..cut]) && RulesOk(rules, text[cut..])
    requires cut <= s.start && cut <= s.end && Covered(rules, text[cut..], r, Back(s, cut), SpansOf(rules, text[cut..]))
    requires Back(s, cut) !in SpansOf(rules, text[cut..])
    ensures q < r && Overlaps(s, t) && Redactable(rules, text, q, t)
    ensures cut <= t.start && cut <= t.end && Back(t, cut) in SpansOf(rules, text[cut..])
  {
    var b: Span;
    q, b :| q < r && b in SpansOf(rules, text[cut..]) && Overlaps(Back(s, cut), b)
        && Redactable(rules, text[cut..], q, b);
    t := Span(b.start + cut, b.end + cut, b.kind);
    assert Back(t, cut) == b;
    RedactableOnItsSide(rules, text, cut, q, t);
  }

  lemma CoveredOnTheRight(rules: seq<Rule>, text: string, cut: nat, r: nat, s: Span)
    requires WellFormed(rules) && cut <= |text| && EveryFindSplits(rules, text, cut) && r < |rules|
    requires RulesOk(rules, text) && RulesOk(rules, text[..cut]) && RulesOk(rules, text[cut..])
    requires cut <= s.start && cut <= s.end && Redactable(rules, text[cut..], r, Back(s, cut))
    ensures Covered(rules, text, r, s, SpansOf(rules, text[..cut]) + Shift(SpansOf(rules, text[cut..]), cut))
  {
    var right := SpansOf(rules, text[cut..]);
    SpansCorrect(rules, text[cut..]);
    ShiftMembers(right, cut, s);
    if Back(s, cut) !in right {
      var q, t := BlockedOnTheRight(rules, text, cut, r, s);
      ShiftMembers(right, cut, t);
    }
  }

  /** When every rule's search splits at a cut, so does the selection: what is on the left never blocks what is on the
      right. */
  lemma SplitFindsSplitSpans(rules: seq<Rule>, text: string, cut: nat)
    requires WellFormed(rules) && cut <= |text| && EveryFindSplits(rules, text, cut)
    ensures SpansSplit(rules, text, cut)
  {
    var left, right := SpansOf(rules, text[..cut]), SpansOf(rules, text[cut..]);
    var joined := left + Shift(right, cut);
    SpansCorrect(rules, text[..cut]);
    SpansCorrect(rules, text[cut..]);
    JoinInOrder(left, right, cut, |text|);
    JoinedIsSound(rules, text, cut);
    forall r: nat, s: Span | r < |rules| && Redactable(rules, text, r, s) ensures Covered(rules, text, r, s, joined) {
      RedactableOnItsSide(rules, text, cut, r, s);
      if Redactable(rules, text[..cut], r, s) {
        CoveredOnTheLeft(rules, text, cut, r, s);
      } else {
        CoveredOnTheRight(rules, text, cut, r, s);
      }
    }
    SelectionIsUnique(rules, text, joined);
  }

  // ---- Which cuts are clean ----

  /** Where a cut below MAX_BUFFER can be: at whitespace, or where some rule's match starts. */
  ghost predicate Place(rules: seq<Rule>, buffer: string, cut: nat) {
    && 0 < cut && cut + HOLD <= |buffer|
    && (IsBreak(buffer[cut]) || exists r, m :: 0 <= r < |rules| && m in rules[r].find(buffer) && m.0 == cut)
  }

  /** Rule `r` is local in the list: at any place for a cut, what follows the buffer does not change whether the cut is
      inside one of the rule's matches, and if it is not, the search splits there. */
  ghost predicate LocalRule(rules: seq<Rule>, r: nat)
    requires r < |rules|
  {
    forall buffer: string, more: string, cut: nat | Place(rules, buffer, cut) :: LocalAt(rules[r], buffer, more, cut)
  }

  ghost predicate LocalAt(rule: Rule, buffer: string, more: string, cut: nat) {
    && cut <= |buffer|
    && (Crossed(rule.find(buffer + more), cut) <==> Crossed(rule.find(buffer), cut))
    && (!Crossed(rule.find(buffer), cut) ==> FindSplits(rule, buffer + more, cut))
  }

  ghost predicate LocalRules(rules: seq<Rule>) {
    forall r | 0 <= r < |rules| :: LocalRule(rules, r)
  }

  /** The cut is inside no match of any rule, whether the match is selected, kept readable or blocked. */
  ghost predicate CleanCut(rules: seq<Rule>, buffer: string, cut: nat) {
    forall r | 0 <= r < |rules| :: !Crossed(rules[r].find(buffer), cut)
  }

  lemma ChosenCutIsPlace(rules: seq<Rule>, buffer: string)
    requires WellFormed(rules) && |buffer| < MAX_BUFFER && SafeCut(rules, buffer) > 0
    ensures Place(rules, buffer, SafeCut(rules, buffer))
  {
    CutCorrect(rules, buffer);
    SpansCorrect(rules, buffer);
    var cut, spans := SafeCut(rules, buffer), SpansOf(rules, buffer);
    if StartsSome(spans, cut) {
      var i :| 0 <= i < |spans| && spans[i].start == cut;
      assert spans[i] in spans;
      var q: nat :| q < |rules| && Redactable(rules, buffer, q, spans[i]);
      assert (spans[i].start, spans[i].end) in rules[q].find(buffer);
    }
  }

  lemma CleanPlaceSplits(rules: seq<Rule>, buffer: string, more: string, cut: nat)
    requires WellFormed(rules) && LocalRules(rules) && Place(rules, buffer, cut) && CleanCut(rules, buffer, cut)
    ensures Redact(rules, buffer + more) == Join(Redact(rules, buffer[..cut]), Redact(rules, buffer[cut..] + more))
  {
    forall r | 0 <= r < |rules| ensures FindSplits(rules[r], buffer + more, cut) {
      assert LocalRule(rules, r);
      assert LocalAt(rules[r], buffer, more, cut);
    }
    SplitFindsSplitSpans(rules, buffer + more, cut);
    CutOfConcat(buffer, more, cut);
    SplitSpansSplitRedaction(rules, buffer + more, cut);
  }

  lemma NoCutSplits(rules: seq<Rule>, buffer: string, more: string)
    requires WellFormed(rules)
    ensures Redact(rules, buffer + more) == Join(Redact(rules, buffer[..0]), Redact(rules, buffer[0..] + more))
  {
    assert buffer[..0] == "" && buffer[0..] == buffer;
    NothingInEmpty(rules);
    JoinNothing(Redact(rules, buffer + more));
  }

  /** A clean cut below MAX_BUFFER splits the redaction of every continuation. */
  lemma CleanCutSplits(rules: seq<Rule>, buffer: string, rest: seq<string>)
    requires WellFormed(rules) && LocalRules(rules) && |buffer| < MAX_BUFFER
             && CleanCut(rules, buffer, SafeCut(rules, buffer))
    ensures CutSplits(rules, buffer, rest)
  {
    if SafeCut(rules, buffer) == 0 {
      NoCutSplits(rules, buffer, Concat(rest));
    } else {
      ChosenCutIsPlace(rules, buffer);
      CleanPlaceSplits(rules, buffer, Concat(rest), SafeCut(rules, buffer));
    }
  }

  /** Every cut of the run is clean when it is chosen. */
  ghost predicate CleanRun(rules: seq<Rule>, buffer: string, chunks: seq<string>)
    requires WellFormed(rules)
    decreases |chunks|
  {
    chunks != [] ==>
      var b := buffer + chunks[0];
      CleanCut(rules, b, SafeCut(rules, b)) && CleanRun(rules, b[SafeCut(rules, b)..], chunks[1..])
  }

  lemma {:induction false} CleanRunGivesBatch(rules: seq<Rule>, buffer: string, chunks: seq<string>)
    requires WellFormed(rules) && LocalRules(rules) && StaysUnder(rules, buffer, chunks)
             && CleanRun(rules, buffer, chunks)
    ensures Stream(rules, buffer, chunks) == Redact(rules, buffer + Concat(chunks))
    decreases |chunks|
  {
    if chunks == [] {
      EmptyPrefix(buffer);
    } else {
      var b := buffer + chunks[0];
      CleanRunGivesBatch(rules, b[SafeCut(rules, b)..], chunks[1..]);
      CleanCutSplits(rules, b, chunks[1..]);
      Assoc(buffer, chunks[0], Concat(chunks[1..]));
    }
  }

  lemma StreamOfOneChunk(rules: seq<Rule>, text: string)
    requires WellFormed(rules)
    ensures var cut := SafeCut(rules, text);
            && Concat([text]) == text
            && Stream(rules, "", [text]) == Join(Redact(rules, text[..cut]), Redact(rules, text[cut..]))
            && (StaysUnder(rules, "", [text]) <==> |text| < MAX_BUFFER)
            && (CleanRun(rules, "", [text]) <==> CleanCut(rules, text, cut))
  {
    EmptyPrefix(text);
    var none: seq<string> := [];
    assert [text][1..] == none;
  }

  /** Main result: with local rules, a run whose buffer stays under MAX_BUFFER and whose cuts all fall outside every
      match of every rule, kept and blocked ones included, puts out what redacting the whole text does, counts
      included. */
  lemma CleanRunsStreamLikeBatch(rules: seq<Rule>, chunks: seq<string>)
    requires WellFormed(rules) && LocalRules(rules) && StaysUnder(rules, "", chunks) && CleanRun(rules, "", chunks)
    ensures Stream(rules, "", chunks) == Redact(rules, Concat(chunks))
  {
    CleanRunGivesBatch(rules, "", chunks);
    EmptyPrefix(Concat(chunks));
  }

  // ---- Exactness: the matches themselves ----

  /** The matches rule `r` finds in the released pieces and in the rest, at their places in buffer and chunks. */
  ghost function FindsOfRun(rules: seq<Rule>, r: nat, buffer: string, chunks: seq<string>): seq<(nat, nat)>
    requires WellFormed(rules) && r < |rules|
    decreases |chunks|
  {
    if chunks == [] then rules[r].find(buffer)
    else
      var b := buffer + chunks[0];
      var cut := SafeCut(rules, b);
      rules[r].find(b[..cut]) + ShiftMatches(FindsOfRun(rules, r, b[cut..], chunks[1..]), cut)
  }

  /** No cut of the run is inside a match of rule `r`. */
  ghost predicate NeverCrossed(rules: seq<Rule>, r: nat, buffer: string, chunks: seq<string>)
    requires WellFormed(rules) && r < |rules|
    decreases |chunks|
  {
    chunks != [] ==>
      var b := buffer + chunks[0];
      !Crossed(rules[r].find(b), SafeCut(rules, b)) && NeverCrossed(rules, r, b[SafeCut(rules, b)..], chunks[1..])
  }

  lemma SameTails(a: seq<(nat, nat)>, b: seq<(nat, nat)>, c: seq<(nat, nat)>, cut: nat)
    ensures a + ShiftMatches(b, cut) == a + ShiftMatches(c, cut) <==> b == c
  {
    var x, y := ShiftMatches(b, cut), ShiftMatches(c, cut);
    if a + x == a + y {
      assert x == (a + x)[|a|..] == (a + y)[|a|..] == y;
      assert |b| == |c|;
      forall k | 0 <= k < |b| ensures b[k] == c[k] {
        assert x[k] == y[k];
      }
    }
  }

  lemma NoMatchInEmpty(rules: seq<Rule>, r: nat)
    requires WellFormed(rules) && r < |rules|
    ensures rules[r].find("") == []
  {
    assert RulesOk(rules, "");
    assert MatchesOk(rules[r].find(""), 0);
    assert rules[r].find("") != [] ==> rules[r].find("")[0].1 <= 0;
  }

  /** What one cut of a run below MAX_BUFFER does to a local rule's search, whatever follows. */
  lemma ChosenCutIsLocal(rules: seq<Rule>, r: nat, b: string, more: string)
    requires WellFormed(rules) && r < |rules| && LocalRule(rules, r) && |b| < MAX_BUFFER
    ensures LocalAt(rules[r], b, more, SafeCut(rules, b))
  {
    if SafeCut(rules, b) == 0 {
      var text := b + more;
      assert text[..0] == "" && text[0..] == text;
      NoMatchInEmpty(rules, r);
      assert ShiftMatches(rules[r].find(text), 0) == rules[r].find(text);
      assert rules[r].find(text) == [] + rules[r].find(text);
    } else {
      ChosenCutIsPlace(rules, b);
    }
  }

  lemma {:induction false} FindsOfRunIff(rules: seq<Rule>, r: nat, buffer: string, chunks: seq<string>)
    requires WellFormed(rules) && r < |rules| && LocalRule(rules, r) && StaysUnder(rules, buffer, chunks)
    ensures FindsOfRun(rules, r, buffer, chunks) == rules[r].find(buffer + Concat(chunks)) <==>
            NeverCrossed(rules, r, buffer, chunks)
    decreases |chunks|
  {
    if chunks == [] {
      EmptyPrefix(buffer);
    } else {
      var b, more := buffer + chunks[0], Concat(chunks[1..]);
      FindsOfRunIff(rules, r, b[SafeCut(rules, b)..], chunks[1..]);
      Assoc(buffer, chunks[0], more);
      OneStepOfFinds(rules, r, b, more, FindsOfRun(rules, r, b[SafeCut(rules, b)..], chunks[1..]));
    }
  }

  lemma OneStepOfFinds(rules: seq<Rule>, r: nat, b: string, more: string, tail: seq<(nat, nat)>)
    requires WellFormed(rules) && r < |rules| && LocalRule(rules, r) && |b| < MAX_BUFFER
    ensures var cut := SafeCut(rules, b);
            rules[r].find(b[..cut]) + ShiftMatches(tail, cut) == rules[r].find(b + more) <==>
            !Crossed(rules[r].find(b), cut) && tail == rules[r].find(b[cut..] + more)
  {
    var cut := SafeCut(rules, b);
    ChosenCutIsLocal(rules, r, b, more);
    CutOfConcat(b, more, cut);
    SameTails(rules[r].find(b[..cut]), tail, rules[r].find(b[cut..] + more), cut);
    assert RulesOk(rules, b[..cut]);
    SplitIsNotCrossed(rules[r].find(b[..cut]), tail, cut);
  }

  /** Exactness, for each local rule: over a run that stays under MAX_BUFFER, searching the released pieces finds
      exactly the matches of the whole text if and only if no cut was inside one of the rule's matches. */
  lemma RunFindsTheMatchesIff(rules: seq<Rule>, r: nat, chunks: seq<string>)
    requires WellFormed(rules) && r < |rules| && LocalRule(rules, r) && StaysUnder(rules, "", chunks)
    ensures FindsOfRun(rules, r, "", chunks) == rules[r].find(Concat(chunks)) <==> NeverCrossed(rules, r, "", chunks)
  {
    FindsOfRunIff(rules, r, "", chunks);
    EmptyPrefix(Concat(chunks));
  }

  lemma {:induction false} CleanRunsCrossNothing(rules: seq<Rule>, r: nat, buffer: string, chunks: seq<string>)
    requires WellFormed(rules) && r < |rules| && CleanRun(rules, buffer, chunks)
    ensures NeverCrossed(rules, r, buffer, chunks)
    decreases |chunks|
  {
    if chunks != [] {
      var b := buffer + chunks[0];
      assert !Crossed(rules[r].find(b), SafeCut(rules, b));
      CleanRunsCrossNothing(rules, r, b[SafeCut(rules, b)..], chunks[1..]);
    }
  }

  lemma {:induction false} CrossingNothingIsClean(rules: seq<Rule>, buffer: string, chunks: seq<string>)
    requires WellFormed(rules) && forall r | 0 <= r < |rules| :: NeverCrossed(rules, r, buffer, chunks)
    ensures CleanRun(rules, buffer, chunks)
    decreases |chunks|
  {
    if chunks != [] {
      var b := buffer + chunks[0];
      var rest, later := b[SafeCut(rules, b)..], chunks[1..];
      forall r | 0 <= r < |rules|
        ensures !Crossed(rules[r].find(b), SafeCut(rules, b)) && NeverCrossed(rules, r, rest, later)
      {
        assert NeverCrossed(rules, r, buffer, chunks);
      }
      CrossingNothingIsClean(rules, rest, later);
    }
  }

  /** A run is clean exactly if, for every rule, searching the released pieces finds the matches of the whole text. */
  lemma CleanRunIff(rules: seq<Rule>, chunks: seq<string>)
    requires WellFormed(rules) && LocalRules(rules) && StaysUnder(rules, "", chunks)
    ensures CleanRun(rules, "", chunks) <==>
            forall r | 0 <= r < |rules| :: FindsOfRun(rules, r, "", chunks) == rules[r].find(Concat(chunks))
  {
    forall r | 0 <= r < |rules|
      ensures FindsOfRun(rules, r, "", chunks) == rules[r].find(Concat(chunks)) <==> NeverCrossed(rules, r, "", chunks)
    {
      RunFindsTheMatchesIff(rules, r, chunks);
    }
    if CleanRun(rules, "", chunks) {
      forall r | 0 <= r < |rules| ensures NeverCrossed(rules, r, "", chunks) {
        CleanRunsCrossNothing(rules, r, "", chunks);
      }
    } else if forall r | 0 <= r < |rules| :: NeverCrossed(rules, r, "", chunks) {
      CrossingNothingIsClean(rules, "", chunks);
    }
  }

  /** The rule searches by `endsOf`. */
  ghost predicate SearchesBy(rule: Rule, endsOf: string -> nat -> nat) {
    forall text: string :: rule.find(text) == Scan(endsOf(text), |text|, 0) && Proper(endsOf(text), |text|)
  }

  ghost predicate AgreesAt(endsOf: string -> nat -> nat, text: string, cut: nat) {
    cut <= |text| && Agree(endsOf(text), endsOf(text[..cut]), endsOf(text[cut..]), cut)
  }

  ghost predicate SameBefore(endsOf: string -> nat -> nat, a: string, b: string, cut: nat) {
    forall j: nat | j < cut :: endsOf(a)(j) == endsOf(b)(j)
  }

  lemma SearchOf(rule: Rule, endsOf: string -> nat -> nat, text: string, length: nat)
    requires SearchesBy(rule, endsOf) && |text| == length
    ensures rule.find(text) == Scan(endsOf(text), length, 0) && Proper(endsOf(text), length)
  {
  }

  /** A search is local where its matches agree before and on both sides of the cut. */
  lemma SearchIsLocalAt(rule: Rule, endsOf: string -> nat -> nat, buffer: string, more: string, cut: nat)
    requires SearchesBy(rule, endsOf) && cut <= |buffer|
    requires AgreesAt(endsOf, buffer + more, cut) && SameBefore(endsOf, buffer + more, buffer, cut)
    ensures LocalAt(rule, buffer, more, cut)
  {
    var text := buffer + more;
    var left, right, rest := text[..cut], text[cut..], |text| - cut;
    SearchOf(rule, endsOf, text, |text|);
    SearchOf(rule, endsOf, buffer, |buffer|);
    SearchOf(rule, endsOf, left, cut);
    SearchOf(rule, endsOf, right, rest);
    SplitsIffOtherNotCrossed(endsOf(text), |text|, endsOf(buffer), |buffer|, endsOf(left), endsOf(right), cut, rest);
  }

  // ---- Rules that select all their matches ----

  /** Every match of every rule is selected: none is kept readable, none blocked. */
  ghost predicate SelectsAll(rules: seq<Rule>)
    requires WellFormed(rules)
  {
    forall text: string, r, m | RulesOk(rules, text) && 0 <= r < |rules| && m in rules[r].find(text) ::
      Span(m.0, m.1, rules[r].kind) in SpansOf(rules, text)
  }

  lemma SelectedCutsAreClean(rules: seq<Rule>, buffer: string)
    requires WellFormed(rules) && SelectsAll(rules)
    ensures CleanCut(rules, buffer, SafeCut(rules, buffer))
  {
    CutCorrect(rules, buffer);
    var cut, spans := SafeCut(rules, buffer), SpansOf(rules, buffer);
    forall r | 0 <= r < |rules| ensures !Crossed(rules[r].find(buffer), cut) {
      var ms := rules[r].find(buffer);
      forall k | 0 <= k < |ms| ensures !(ms[k].0 < cut < ms[k].1) {
        assert ms[k] in ms;
        assert Span(ms[k].0, ms[k].1, rules[r].kind) in spans;
      }
    }
  }

  lemma {:induction false} SelectedRunsAreClean(rules: seq<Rule>, buffer: string, chunks: seq<string>)
    requires WellFormed(rules) && SelectsAll(rules)
    ensures CleanRun(rules, buffer, chunks)
    decreases |chunks|
  {
    if chunks != [] {
      var b := buffer + chunks[0];
      SelectedCutsAreClean(rules, b);
      SelectedRunsAreClean(rules, b[SafeCut(rules, b)..], chunks[1..]);
    }
  }

  /** For local rules that select all their matches the redactor's own check of the cut is enough: streaming agrees with
      batch redaction on every run that stays under MAX_BUFFER. */
  lemma SelectedRunsStreamLikeBatch(rules: seq<Rule>)
    requires WellFormed(rules) && LocalRules(rules) && SelectsAll(rules)
    ensures StreamingIsBatch(rules)
  {
    forall chunks | StaysUnder(rules, "", chunks) ensures Stream(rules, "", chunks) == Redact(rules, Concat(chunks)) {
      SelectedRunsAreClean(rules, "", chunks);
      CleanRunsStreamLikeBatch(rules, chunks);
    }
  }

  /** Clean cuts are not necessary for the output: rules that keep every match readable stream like batch redaction
      however their matches are cut. */
  lemma KeptMatchesAloneAreHarmless(rules: seq<Rule>)
    requires WellFormed(rules) && forall r: nat, s: string | r < |rules| :: rules[r].keep(s)
    ensures StreamingIsBatch(rules)
  {
    forall buffer: string, rest: seq<string> |
      |buffer| < MAX_BUFFER && StaysUnder(rules, buffer[SafeCut(rules, buffer)..], rest)
      ensures CutSplits(rules, buffer, rest)
    {
      var cut, text := SafeCut(rules, buffer), buffer + Concat(rest);
      NothingSelected(rules, text);
      NothingSelected(rules, text[..cut]);
      NothingSelected(rules, text[cut..]);
      assert SpansSplit(rules, text, cut);
      CutOfConcat(buffer, Concat(rest), cut);
      SplitSpansSplitRedaction(rules, text, cut);
    }
    StreamingIsBatchIffCutsSplit(rules);
  }

  lemma NothingSelected(rules: seq<Rule>, text: string)
    requires WellFormed(rules) && forall r: nat, s: string | r < |rules| :: rules[r].keep(s)
    ensures RulesOk(rules, text) && SpansOf(rules, text) == []
  {
    SpansCorrect(rules, text);
    NoMembers(SpansOf(rules, text));
  }

  // ---- The redactor ----

  method PulledBack(spans: seq<Span>, wanted: nat) returns (cut: nat)
    ensures cut == PullBack(spans, wanted)
  {
    assert spans[0..] == spans;
    for i := 0 to |spans|
      invariant PullBack(spans[i..], wanted) == PullBack(spans, wanted)
    {
      assert spans[i..][0] == spans[i] && spans[i..][1..] == spans[i + 1..];
      if spans[i].start < wanted < spans[i].end {
        return spans[i].start;
      }
    }
    cut := wanted;
  }

  class StreamRedactor {
    const rules: seq<Rule>
    var buffer: string
    var counts: map<string, nat>
    ghost var fed: string       // the raw input so far
    ghost var released: string  // the raw text that has left the buffer

    /** Nothing is lost or repeated: released text followed by the buffer is the input. */
    ghost predicate Valid()
      reads this
    {
      WellFormed(rules) && fed == released + buffer
    }

    constructor (rules: seq<Rule>)
      requires WellFormed(rules)
      ensures Valid() && this.rules == rules && buffer == "" && counts == map[] && fed == "" && released == ""
    {
      this.rules := rules;
      buffer, counts, fed, released := "", map[], "", "";
    }

    method Emit(text: string) returns (redacted: string)
      requires WellFormed(rules)
      modifies this`counts
      ensures Redacted(redacted, counts) == Join(Redacted("", old(counts)), Redact(rules, text))
    {
      var found;
      assert RulesOk(rules, text);
      redacted, found := RedactPii(rules, text);
      EmptyPrefix(redacted);
      var before := counts;
      counts := map k | k in before.Keys + found.Keys ::
        (if k in before then before[k] else 0) + (if k in found then found[k] else 0);
    }

    /** How much of the buffer may go; 0 when everything is held back. */
    method ChooseCut() returns (cut: nat)
      requires WellFormed(rules)
      ensures cut == SafeCut(rules, buffer)
    {
      CutCorrect(rules, buffer);
      if |buffer| <= HOLD {
        return 0;
      }
      cut := |buffer| - HOLD;
      if |buffer| < MAX_BUFFER {
        var space := Max(RFind(buffer, ' ', cut), RFind(buffer, '\n', cut));
        if space <= 0 {
          return 0;
        }
        cut := space;
      }
      var spans := FindSpans(rules, buffer);
      cut := PulledBack(spans, cut);
    }

    method Feed(chunk: string) returns (out: string)
      requires Valid()
      modifies this
      ensures Valid() && fed == old(fed) + chunk
      ensures var whole := old(buffer) + chunk;
              var cut := SafeCut(rules, whole);
              && buffer == whole[cut..] && released == old(released) + whole[..cut]
              && Redacted(out, counts) == Join(Redacted("", old(counts)), Redact(rules, whole[..cut]))
              && !InsideSome(SpansOf(rules, whole), cut)
      ensures |buffer| >= MAX_BUFFER ==>
                var whole := old(buffer) + chunk;
                exists i :: 0 <= i < |SpansOf(rules, whole)|
                            && SpansOf(rules, whole)[i].start == |whole| - |buffer|
                            && |whole| - HOLD < SpansOf(rules, whole)[i].end
    {
      ghost var start := counts;
      buffer := buffer + chunk;
      fed := fed + chunk;
      Assoc(released, old(buffer), chunk);
      ghost var whole := buffer;
      CutCorrect(rules, whole);
      var cut := ChooseCut();
      if cut <= 0 {
        NothingEmitted(rules, start, whole);
        return "";
      }
      SplitAt(released, buffer, cut);
      var piece := buffer[..cut];
      buffer := buffer[cut..];
      released := released + piece;
      out := Emit(piece);
    }

    method Flush() returns (out: string)
      requires Valid()
      modifies this
      ensures Valid() && buffer == "" && released == fed == old(fed)
      ensures Redacted(out, counts) == Join(Redacted("", old(counts)), Redact(rules, old(buffer)))
    {
      var piece := buffer;
      EmptyPrefix(released + piece);
      buffer := "";
      released := released + piece;
      if piece != "" {
        out := Emit(piece);
      } else {
        NothingInEmpty(rules);
        JoinNothing(Redacted("", counts));
        out := "";
      }
    }
  }

  lemma SplitAt(released: string, buffer: string, cut: nat)
    requires cut <= |buffer|
    ensures released + buffer == released + buffer[..cut] + buffer[cut..]
  {
  }

  lemma NothingEmitted(rules: seq<Rule>, counts: map<string, nat>, whole: string)
    requires WellFormed(rules)
    ensures whole[..0] == "" && whole[0..] == whole
    ensures Redacted("", counts) == Join(Redacted("", counts), Redact(rules, whole[..0]))
  {
    NothingInEmpty(rules);
    JoinNothing(Redacted("", counts));
  }

  /** One redactor fed chunk by chunk and then flushed. */
  method RedactStream(rules: seq<Rule>, chunks: seq<string>) returns (out: string, counts: map<string, nat>)
    requires WellFormed(rules)
    ensures Redacted(out, counts) == Stream(rules, "", chunks)
    ensures StreamingIsBatch(rules) && StaysUnder(rules, "", chunks) ==>
            Redacted(out, counts) == Redact(rules, Concat(chunks))
  {
    var redactor := new StreamRedactor(rules);
    ghost var total := Stream(rules, "", chunks);
    out := "";
    assert chunks[0..] == chunks;
    JoinNothing(total);
    for i := 0 to |chunks|
      invariant redactor.Valid() && redactor.rules == rules && fresh(redactor)
      invariant Join(Redacted(out, redactor.counts), Stream(rules, redactor.buffer, chunks[i..])) == total
    {
      StreamStep(rules, out, redactor.counts, redactor.buffer, chunks, i);
      var emitted := redactor.Feed(chunks[i]);
      out := out + emitted;
    }
    LastStep(rules, out, redactor.counts, redactor.buffer);
    var tail := redactor.Flush();
    out := out + tail;
    counts := redactor.counts;
  }

  lemma OneStep(out: string, counts: map<string, nat>, step: Redacted, rest: Redacted)
    ensures var after := Join(Redacted("", counts), step);
            Join(Redacted(out + after.text, after.counts), rest) == Join(Redacted(out, counts), Join(step, rest))
  {
    EmptyPrefix(step.text);
    JoinAssoc(Redacted(out, counts), step, rest);
  }

  lemma StreamStep(rules: seq<Rule>, out: string, counts: map<string, nat>, buffer: string, chunks: seq<string>, i: nat)
    requires WellFormed(rules) && i < |chunks|
    ensures var whole := buffer + chunks[i];
            var cut := SafeCut(rules, whole);
            var after := Join(Redacted("", counts), Redact(rules, whole[..cut]));
            Join(Redacted(out + after.text, after.counts), Stream(rules, whole[cut..], chunks[i + 1..])) ==
            Join(Redacted(out, counts), Stream(rules, buffer, chunks[i..]))
  {
    assert chunks[i..][0] == chunks[i] && chunks[i..][1..] == chunks[i + 1..];
    var whole := buffer + chunks[i];
    var cut := SafeCut(rules, whole);
    OneStep(out, counts, Redact(rules, whole[..cut]), Stream(rules, whole[cut..], chunks[i + 1..]));
  }

  lemma LastStep(rules: seq<Rule>, out: string, counts: map<string, nat>, buffer: string)
    requires WellFormed(rules)
    ensures var after := Join(Redacted("", counts), Redact(rules, buffer));
            Redacted(out + after.text, after.counts) == Join(Redacted(out, counts), Stream(rules, buffer, []))
  {
    EmptyPrefix(Redact(rules, buffer).text);
  }
}
