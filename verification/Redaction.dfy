/** Batch redaction of personal data: priority-ordered span selection and text rewriting
    (services/ai/ai_guardrails.py). A regular expression is represented by the matches it
    finds: a function from a text to the (start, end) pairs that a left-to-right search yields. */
module Redaction {

  /** One entry of the pattern list: `keep` tells which matches stay readable. */
  datatype Rule = Rule(kind: string, find: string -> seq<(nat, nat)>, keep: string -> bool)

  datatype Span = Span(start: nat, end: nat, kind: string)

  /** The rewritten text and how many spans of each kind it hides. */
  datatype Redacted = Redacted(text: string, counts: map<string, nat>)

  // ---- What a search yields: in bounds, not empty, increasing ----

  ghost predicate MatchesOk(ms: seq<(nat, nat)>, length: nat) {
    && (forall i | 0 <= i < |ms| :: ms[i].0 < ms[i].1 <= length)
    && (forall i, j | 0 <= i < j < |ms| :: ms[i].1 <= ms[j].0)
  }

  ghost predicate RulesOk(rules: seq<Rule>, text: string) {
    forall r | 0 <= r < |rules| :: MatchesOk(rules[r].find(text), |text|)
  }

  ghost predicate WellFormed(rules: seq<Rule>) {
    forall text: string :: RulesOk(rules, text)
  }

  // ---- Selection ----

  predicate Overlaps(a: Span, b: Span) {
    a.start < b.end && b.start < a.end
  }

  predicate Clear(s: Span, taken: seq<Span>) {
    forall i | 0 <= i < |taken| :: !Overlaps(s, taken[i])
  }

  function TakeOne(rule: Rule, text: string, m: (nat, nat), taken: seq<Span>): seq<Span>
    requires m.0 < m.1 <= |text|
  {
    var s := Span(m.0, m.1, rule.kind);
    if rule.keep(text[m.0..m.1]) || !Clear(s, taken) then taken else taken + [s]
  }

  function TakeMatches(rule: Rule, text: string, ms: seq<(nat, nat)>, taken: seq<Span>): seq<Span>
    requires forall i | 0 <= i < |ms| :: ms[i].0 < ms[i].1 <= |text|
  {
    if ms == [] then taken
    else TakeMatches(rule, text, ms[1..], TakeOne(rule, text, ms[0], taken))
  }

  function TakeRules(rules: seq<Rule>, text: string, taken: seq<Span>): seq<Span>
    requires RulesOk(rules, text)
  {
    if rules == [] then taken
    else
      assert MatchesOk(rules[0].find(text), |text|);
      assert RulesOk(rules[1..], text) by {
        forall r | 0 <= r < |rules[1..]| ensures MatchesOk(rules[1..][r].find(text), |text|) {
          assert rules[1..][r] == rules[r + 1];
        }
      }
      TakeRules(rules[1..], text, TakeMatches(rules[0], text, rules[0].find(text), taken))
  }

  function InsertSpan(s: Span, sorted: seq<Span>): seq<Span> {
    if sorted == [] || s.start <= sorted[0].start then [s] + sorted
    else [sorted[0]] + InsertSpan(s, sorted[1..])
  }

  /** `sorted(taken)`: taken spans are disjoint and not empty, so their starts decide the order. */
  function SortSpans(spans: seq<Span>): seq<Span> {
    if spans == [] then [] else InsertSpan(spans[0], SortSpans(spans[1..]))
  }

  function SpansOf(rules: seq<Rule>, text: string): seq<Span>
    requires RulesOk(rules, text)
  {
    SortSpans(TakeRules(rules, text, []))
  }

  // ---- What selection promises ----

  ghost predicate Disjoint(spans: seq<Span>) {
    forall i, j | 0 <= i < j < |spans| :: !Overlaps(spans[i], spans[j])
  }

  ghost predicate InBounds(spans: seq<Span>, length: nat) {
    forall i | 0 <= i < |spans| :: spans[i].start < spans[i].end <= length
  }

  ghost predicate Ordered(spans: seq<Span>) {
    forall i, j | 0 <= i < j < |spans| :: spans[i].end <= spans[j].start
  }

  /** `s` is a match of rule `r` that the rule does not keep readable. */
  ghost predicate Redactable(rules: seq<Rule>, text: string, r: nat, s: Span)
    requires RulesOk(rules, text)
  {
    && r < |rules|
    && s.start < s.end <= |text|
    && (s.start, s.end) in rules[r].find(text)
    && s.kind == rules[r].kind
    && !rules[r].keep(text[s.start..s.end])
  }

  /** Why a redactable match is covered: it is selected, or a rule listed before `r` selected an overlapping one. */
  ghost predicate Covered(rules: seq<Rule>, text: string, r: nat, s: Span, selected: seq<Span>)
    requires RulesOk(rules, text)
  {
    s in selected
    || exists q: nat, t: Span :: q < r && t in selected && Overlaps(s, t) && Redactable(rules, text, q, t)
  }

  ghost predicate Sound(rules: seq<Rule>, text: string, upTo: nat, selected: seq<Span>)
    requires RulesOk(rules, text)
  {
    forall t | t in selected :: exists q: nat :: q < upTo && Redactable(rules, text, q, t)
  }

  /** The state of the inner loop for rule `r` after its first `k` matches: `base` was taken for earlier rules. */
  ghost predicate MatchStage(rules: seq<Rule>, text: string, r: nat, k: nat, base: seq<Span>, taken: seq<Span>)
    requires RulesOk(rules, text) && r < |rules| && k <= |rules[r].find(text)|
  {
    && base <= taken && Disjoint(taken) && InBounds(taken, |text|) && Sound(rules, text, r, base)
    && (forall i | |base| <= i < |taken| ::
          Redactable(rules, text, r, taken[i]) && (taken[i].start, taken[i].end) in rules[r].find(text)[..k])
    && (forall s: Span | Redactable(rules, text, r, s) && (s.start, s.end) in rules[r].find(text)[..k] ::
          Covered(rules, text, r, s, taken))
  }

  lemma TakeOneKeeps(rules: seq<Rule>, text: string, r: nat, k: nat, base: seq<Span>, taken: seq<Span>)
    requires RulesOk(rules, text) && r < |rules| && k < |rules[r].find(text)|
    requires MatchStage(rules, text, r, k, base, taken)
    ensures MatchesOk(rules[r].find(text), |text|)
    ensures MatchStage(rules, text, r, k + 1, base, TakeOne(rules[r], text, rules[r].find(text)[k], taken))
    ensures taken <= TakeOne(rules[r], text, rules[r].find(text)[k], taken)
  {
    var ms := rules[r].find(text);
    assert MatchesOk(ms, |text|);
    var m := ms[k];
    var s0 := Span(m.0, m.1, rules[r].kind);
    var next := TakeOne(rules[r], text, m, taken);
    assert ms[..k + 1] == ms[..k] + [m];
    forall s: Span | Redactable(rules, text, r, s) && (s.start, s.end) in ms[..k + 1]
      ensures Covered(rules, text, r, s, next)
    {
      if (s.start, s.end) in ms[..k] {
        assert Covered(rules, text, r, s, taken);
      } else {
        assert s == s0;
        if !Clear(s0, taken) {
          BlockedByEarlier(rules, text, r, k, base, taken, s0);
        }
      }
    }
  }

  /** Matches of one rule never overlap each other, so whatever blocks a match was selected for an earlier rule. */
  lemma BlockedByEarlier(rules: seq<Rule>, text: string, r: nat, k: nat, base: seq<Span>, taken: seq<Span>, s: Span)
    requires RulesOk(rules, text) && r < |rules| && k < |rules[r].find(text)|
    requires MatchStage(rules, text, r, k, base, taken)
    requires (s.start, s.end) == rules[r].find(text)[k]
    requires !Clear(s, taken)
    ensures Covered(rules, text, r, s, taken)
  {
    var ms := rules[r].find(text);
    assert MatchesOk(ms, |text|);
    var i :| 0 <= i < |taken| && Overlaps(s, taken[i]);
    var t := taken[i];
    assert i < |base| && t == base[i];
    assert t in base;
    var q: nat :| q < r && Redactable(rules, text, q, t);
  }

  lemma {:induction false} TakeMatchesKeeps(
    rules: seq<Rule>, text: string, r: nat, k: nat, base: seq<Span>, taken: seq<Span>)
    requires RulesOk(rules, text) && r < |rules| && k <= |rules[r].find(text)|
    requires MatchStage(rules, text, r, k, base, taken)
    ensures MatchesOk(rules[r].find(text), |text|)
    ensures var done := TakeMatches(rules[r], text, rules[r].find(text)[k..], taken);
            taken <= done && MatchStage(rules, text, r, |rules[r].find(text)|, base, done)
    decreases |rules[r].find(text)| - k
  {
    var ms := rules[r].find(text);
    assert MatchesOk(ms, |text|);
    if k < |ms| {
      assert ms[k..][0] == ms[k] && ms[k..][1..] == ms[k + 1..];
      TakeOneKeeps(rules, text, r, k, base, taken);
      TakeMatchesKeeps(rules, text, r, k + 1, base, TakeOne(rules[r], text, ms[k], taken));
    }
  }

  lemma StageIsSound(rules: seq<Rule>, text: string, r: nat, base: seq<Span>, taken: seq<Span>)
    requires RulesOk(rules, text) && r < |rules|
    requires MatchStage(rules, text, r, |rules[r].find(text)|, base, taken)
    ensures Sound(rules, text, r + 1, taken)
  {
    forall t | t in taken ensures exists q: nat :: q < r + 1 && Redactable(rules, text, q, t) {
      var i :| 0 <= i < |taken| && taken[i] == t;
      if i < |base| {
        assert t in base;
        var q: nat :| q < r && Redactable(rules, text, q, t);
      }
    }
  }

  ghost predicate AllCovered(rules: seq<Rule>, text: string, upTo: nat, selected: seq<Span>)
    requires RulesOk(rules, text)
  {
    forall q: nat, s: Span | q < upTo && Redactable(rules, text, q, s) :: Covered(rules, text, q, s, selected)
  }

  lemma CoveredGrows(rules: seq<Rule>, text: string, r: nat, s: Span, taken: seq<Span>, more: seq<Span>)
    requires RulesOk(rules, text) && Covered(rules, text, r, s, taken)
    requires forall t | t in taken :: t in more
    ensures Covered(rules, text, r, s, more)
  {
    if s !in taken {
      var q: nat, t: Span :| q < r && t in taken && Overlaps(s, t) && Redactable(rules, text, q, t);
      assert t in more;
    }
  }

  lemma StageCovers(rules: seq<Rule>, text: string, r: nat, base: seq<Span>, taken: seq<Span>)
    requires RulesOk(rules, text) && r < |rules|
    requires MatchStage(rules, text, r, |rules[r].find(text)|, base, taken)
    requires AllCovered(rules, text, r, base)
    ensures AllCovered(rules, text, r + 1, taken)
  {
    var ms := rules[r].find(text);
    assert ms[..|ms|] == ms;
    forall q: nat, s: Span | q < r + 1 && Redactable(rules, text, q, s) ensures Covered(rules, text, q, s, taken) {
      if q < r {
        CoveredGrows(rules, text, q, s, base, taken);
      }
    }
  }

  lemma {:induction false} TakeRulesCovers(rules: seq<Rule>, text: string, r: nat, taken: seq<Span>)
    requires RulesOk(rules, text) && r <= |rules| && RulesOk(rules[r..], text)
    requires Disjoint(taken) && InBounds(taken, |text|) && Sound(rules, text, r, taken)
    requires AllCovered(rules, text, r, taken)
    ensures var done := TakeRules(rules[r..], text, taken);
            && Disjoint(done) && InBounds(done, |text|) && Sound(rules, text, |rules|, done)
            && AllCovered(rules, text, |rules|, done)
    decreases |rules| - r
  {
    if r < |rules| {
      var ms := rules[r].find(text);
      var later := rules[r + 1..];
      assert rules[r..][0] == rules[r] && rules[r..][1..] == later;
      assert MatchesOk(ms, |text|);
      assert ms[0..] == ms && ms[..0] == [];
      TakeMatchesKeeps(rules, text, r, 0, taken, taken);
      var next := TakeMatches(rules[r], text, ms, taken);
      StageIsSound(rules, text, r, taken, next);
      StageCovers(rules, text, r, taken, next);
      forall i | 0 <= i < |later| ensures MatchesOk(later[i].find(text), |text|) {
        assert later[i] == rules[r + 1 + i];
      }
      TakeRulesCovers(rules, text, r + 1, next);
    }
  }

  lemma {:induction false} InsertSpanMembers(s: Span, sorted: seq<Span>)
    ensures forall t :: t in InsertSpan(s, sorted) <==> t == s || t in sorted
  {
    if !(sorted == [] || s.start <= sorted[0].start) {
      InsertSpanMembers(s, sorted[1..]);
      assert sorted == [sorted[0]] + sorted[1..];
    }
  }

  lemma FirstEndsFirst(sorted: seq<Span>)
    requires Ordered(sorted) && sorted != []
    ensures forall t | t in sorted[1..] :: sorted[0].end <= t.start
  {
    forall t | t in sorted[1..] ensures sorted[0].end <= t.start {
      var k :| 0 <= k < |sorted[1..]| && sorted[1..][k] == t;
      assert sorted[k + 1] == t;
    }
  }

  lemma OrderedCons(first: Span, rest: seq<Span>)
    requires Ordered(rest) && forall t | t in rest :: first.end <= t.start
    ensures Ordered([first] + rest)
  {
    forall j | 0 <= j < |rest| ensures first.end <= rest[j].start {
      assert rest[j] in rest;
    }
  }

  lemma {:induction false} InsertSpanOrders(s: Span, sorted: seq<Span>)
    requires Ordered(sorted) && s.start < s.end
    requires forall t | t in sorted :: t.start < t.end && !Overlaps(s, t)
    ensures Ordered(InsertSpan(s, sorted))
  {
    if sorted == [] {
    } else if s.start <= sorted[0].start {
      assert sorted[0] in sorted;
      forall j | 0 <= j < |sorted| ensures s.end <= sorted[j].start {
        assert sorted[j] in sorted;
      }
    } else {
      var first, tail := sorted[0], sorted[1..];
      InsertSpanOrders(s, tail);
      InsertSpanMembers(s, tail);
      assert first in sorted && first.end <= s.start;
      FirstEndsFirst(sorted);
      OrderedCons(first, InsertSpan(s, tail));
    }
  }

  lemma {:induction false} InsertSpanSorts(s: Span, sorted: seq<Span>, length: nat)
    requires Ordered(sorted) && InBounds(sorted, length) && s.start < s.end <= length
    requires forall i | 0 <= i < |sorted| :: !Overlaps(s, sorted[i])
    ensures var done := InsertSpan(s, sorted);
            && Ordered(done) && InBounds(done, length)
            && forall t :: t in done <==> t == s || t in sorted
  {
    InsertSpanMembers(s, sorted);
    InsertSpanOrders(s, sorted);
    var done := InsertSpan(s, sorted);
    forall i | 0 <= i < |done| ensures done[i].start < done[i].end <= length {
      assert done[i] in done;
    }
  }

  lemma {:induction false} SortSpansSorts(spans: seq<Span>, length: nat)
    requires Disjoint(spans) && InBounds(spans, length)
    ensures Ordered(SortSpans(spans)) && InBounds(SortSpans(spans), length)
    ensures forall t :: t in SortSpans(spans) <==> t in spans
  {
    if spans != [] {
      var tail := spans[1..];
      assert spans == [spans[0]] + tail;
      SortSpansSorts(tail, length);
      var rest := SortSpans(tail);
      forall i | 0 <= i < |rest| ensures !Overlaps(spans[0], rest[i]) {
        assert rest[i] in rest;
        var j :| 0 <= j < |tail| && tail[j] == rest[i];
        assert spans[j + 1] == tail[j];
      }
      InsertSpanSorts(spans[0], rest, length);
    }
  }

  /** Main result of selection: the spans are sorted, disjoint and in bounds; each one is a match
      its rule does not keep; and every such match is selected or overlaps a selected match of an
      earlier rule. */
  lemma SpansCorrect(rules: seq<Rule>, text: string)
    requires RulesOk(rules, text)
    ensures Ordered(SpansOf(rules, text)) && InBounds(SpansOf(rules, text), |text|)
    ensures Sound(rules, text, |rules|, SpansOf(rules, text))
    ensures AllCovered(rules, text, |rules|, SpansOf(rules, text))
  {
    assert rules[0..] == rules;
    TakeRulesCovers(rules, text, 0, []);
    var taken := TakeRules(rules, text, []);
    SortSpansSorts(taken, |text|);
    var spans := SpansOf(rules, text);
    forall r: nat, s: Span | r < |rules| && Redactable(rules, text, r, s) ensures Covered(rules, text, r, s, spans) {
      CoveredGrows(rules, text, r, s, taken, spans);
    }
  }

  // ---- The selection is determined by what it promises ----

  /** Sorted disjoint spans are determined by their members. */
  lemma {:induction false} SameMembersSameSpans(a: seq<Span>, b: seq<Span>, length: nat)
    requires Ordered(a) && InBounds(a, length) && Ordered(b) && InBounds(b, length)
    requires forall t :: t in a <==> t in b
    ensures a == b
  {
    if a == [] {
      NoMembers(b);
    } else {
      assert a[0] in b && b != [] && b[0] in a;
      FirstIsLeast(a, b[0], length);
      FirstIsLeast(b, a[0], length);
      forall t ensures t in a[1..] <==> t in b[1..] {
        TailMembers(a, length, t);
        TailMembers(b, length, t);
      }
      SameMembersSameSpans(a[1..], b[1..], length);
      assert a == [a[0]] + a[1..] && b == [b[0]] + b[1..];
    }
  }

  lemma NoMembers(a: seq<Span>)
    requires forall t :: t !in a
    ensures a == []
  {
    if a != [] {
      HasMember(a);
    }
  }

  lemma HasMember(a: seq<Span>)
    requires a != []
    ensures exists t :: t in a
  {
    assert a[0] in a;
  }

  lemma FirstIsLeast(a: seq<Span>, t: Span, length: nat)
    requires t in a && Ordered(a) && InBounds(a, length)
    ensures t == a[0] || a[0].start < t.start
  {
    var i :| 0 <= i < |a| && a[i] == t;
  }

  lemma TailMembers(a: seq<Span>, length: nat, t: Span)
    requires a != [] && Ordered(a) && InBounds(a, length)
    ensures t in a[1..] <==> t in a && t != a[0]
  {
    if t in a && t != a[0] {
      var i :| 0 <= i < |a| && a[i] == t;
      assert a[1..][i - 1] == t;
    }
  }

  lemma OverlapIsSame(spans: seq<Span>, length: nat, s: Span, t: Span)
    requires Ordered(spans) && InBounds(spans, length) && s in spans && t in spans && Overlaps(s, t)
    ensures s == t
  {
    var i :| 0 <= i < |spans| && spans[i] == s;
    var j :| 0 <= j < |spans| && spans[j] == t;
  }

  /** A selection with the three promises: sorted and in bounds, only redactable matches, every such match covered. */
  ghost predicate IsSelection(rules: seq<Rule>, text: string, spans: seq<Span>)
    requires RulesOk(rules, text)
  {
    Ordered(spans) && InBounds(spans, |text|) && Sound(rules, text, |rules|, spans)
        && AllCovered(rules, text, |rules|, spans)
  }

  lemma {:induction false} SelectedAlike(rules: seq<Rule>, text: string, a: seq<Span>, b: seq<Span>, r: nat, s: Span)
    requires RulesOk(rules, text) && IsSelection(rules, text, a) && IsSelection(rules, text, b)
    requires Redactable(rules, text, r, s) && s in a
    ensures s in b
    decreases r
  {
    assert Covered(rules, text, r, s, b);
    if s !in b {
      var q: nat, t: Span :| q < r && t in b && Overlaps(s, t) && Redactable(rules, text, q, t);
      SelectedAlike(rules, text, b, a, q, t);
      OverlapIsSame(a, |text|, s, t);
    }
  }

  /** The promises leave no choice: exactly one list of spans keeps them. */
  lemma SelectionIsUnique(rules: seq<Rule>, text: string, spans: seq<Span>)
    requires RulesOk(rules, text)
    ensures IsSelection(rules, text, spans) <==> spans == SpansOf(rules, text)
  {
    SpansCorrect(rules, text);
    if IsSelection(rules, text, spans) {
      var selected := SpansOf(rules, text);
      forall t ensures t in spans <==> t in selected {
        if t in spans {
          var q: nat :| q < |rules| && Redactable(rules, text, q, t);
          SelectedAlike(rules, text, spans, selected, q, t);
        }
        if t in selected {
          var q: nat :| q < |rules| && Redactable(rules, text, q, t);
          SelectedAlike(rules, text, selected, spans, q, t);
        }
      }
      SameMembersSameSpans(spans, selected, |text|);
    }
  }

  // ---- Rewriting ----

  function Placeholder(kind: string): string { "[REDACTED_" + kind + "]" }

  function Render(text: string, spans: seq<Span>, pos: nat): string
    requires pos <= |text| && InBounds(spans, |text|) && Ordered(spans)
    requires spans != [] ==> pos <= spans[0].start
    decreases |spans|
  {
    if spans == [] then text[pos..]
    else text[pos..spans[0].start] + Placeholder(spans[0].kind) + Render(text, spans[1..], spans[0].end)
  }

  function KindCount(spans: seq<Span>, kind: string): nat {
    if spans == [] then 0
    else (if spans[|spans| - 1].kind == kind then 1 else 0) + KindCount(spans[..|spans| - 1], kind)
  }

  function Kinds(spans: seq<Span>): set<string> {
    set i | 0 <= i < |spans| :: spans[i].kind
  }

  function CountsOf(spans: seq<Span>): map<string, nat> {
    map k | k in Kinds(spans) :: KindCount(spans, k)
  }

  function Redact(rules: seq<Rule>, text: string): Redacted
    requires RulesOk(rules, text)
  {
    SpansCorrect(rules, text);
    Redacted(Render(text, SpansOf(rules, text), 0), CountsOf(SpansOf(rules, text)))
  }

  /** A text cut into readable stretches and hidden spans. */
  datatype Piece = Plain(text: string) | Hidden(kind: string, original: string)

  function Original(pieces: seq<Piece>): string {
    if pieces == [] then "" else (match pieces[0] case Plain(t) => t case Hidden(_, o) => o) + Original(pieces[1..])
  }

  function Shown(pieces: seq<Piece>): string {
    if pieces == [] then ""
    else (match pieces[0] case Plain(t) => t case Hidden(k, _) => Placeholder(k)) + Shown(pieces[1..])
  }

  function PlainBefore(text: string, spans: seq<Span>, pos: nat, i: nat): Piece
    requires InBounds(spans, |text|) && Ordered(spans) && pos <= |text| && (spans != [] ==> pos <= spans[0].start)
    requires i <= |spans|
  {
    var from := if i == 0 then pos else spans[i - 1].end;
    var to := if i == |spans| then |text| else spans[i].start;
    assert from <= to;
    Plain(text[from..to])
  }

  /** The pieces alternate: readable text up to a span, then the span, and so on from `pos`. */
  ghost predicate Follows(text: string, spans: seq<Span>, pos: nat, pieces: seq<Piece>) {
    && InBounds(spans, |text|) && Ordered(spans) && pos <= |text| && (spans != [] ==> pos <= spans[0].start)
    && |pieces| == 2 * |spans| + 1
    && (forall i | 0 <= i < |spans| :: pieces[2 * i + 1] == Hidden(spans[i].kind, text[spans[i].start..spans[i].end]))
    && (forall i | 0 <= i <= |spans| :: pieces[2 * i] == PlainBefore(text, spans, pos, i))
  }

  lemma FollowsCons(text: string, spans: seq<Span>, pos: nat, rest: seq<Piece>)
    requires spans != [] && InBounds(spans, |text|) && Ordered(spans) && pos <= spans[0].start
    requires Follows(text, spans[1..], spans[0].end, rest)
    ensures Follows(text, spans, pos,
                    [Plain(text[pos..spans[0].start]), Hidden(spans[0].kind, text[spans[0].start..spans[0].end])]
                    + rest)
  {
    var s := spans[0];
    var pieces := [Plain(text[pos..s.start]), Hidden(s.kind, text[s.start..s.end])] + rest;
    forall i | 0 < i < |spans| ensures pieces[2 * i + 1] == Hidden(spans[i].kind, text[spans[i].start..spans[i].end]) {
      assert pieces[2 * i + 1] == rest[2 * (i - 1) + 1];
      assert spans[1..][i - 1] == spans[i];
    }
    forall i | 0 < i <= |spans| ensures pieces[2 * i] == PlainBefore(text, spans, pos, i) {
      assert pieces[2 * i] == rest[2 * (i - 1)];
      assert PlainBefore(text, spans[1..], s.end, i - 1) == PlainBefore(text, spans, pos, i);
    }
  }

  lemma JoinThree(text: string, a: nat, b: nat, c: nat)
    requires a <= b <= c <= |text|
    ensures text[a..] == text[a..b] + (text[b..c] + text[c..])
  {
  }

  lemma Assoc(a: string, b: string, c: string)
    ensures a + b + c == a + (b + c)
  {
  }

  lemma PrependPieces(before: string, kind: string, hidden: string, rest: seq<Piece>)
    ensures Original([Plain(before), Hidden(kind, hidden)] + rest) == before + (hidden + Original(rest))
    ensures Shown([Plain(before), Hidden(kind, hidden)] + rest) == before + (Placeholder(kind) + Shown(rest))
  {
    var pieces := [Plain(before), Hidden(kind, hidden)] + rest;
    var tail := [Hidden(kind, hidden)] + rest;
    assert pieces[1..] == tail && tail[1..] == rest;
  }

  lemma {:induction false} RenderByPieces(text: string, spans: seq<Span>, pos: nat) returns (pieces: seq<Piece>)
    requires pos <= |text| && InBounds(spans, |text|) && Ordered(spans)
    requires spans != [] ==> pos <= spans[0].start
    ensures Follows(text, spans, pos, pieces)
    ensures Original(pieces) == text[pos..] && Shown(pieces) == Render(text, spans, pos)
    decreases |spans|
  {
    if spans == [] {
      pieces := [Plain(text[pos..])];
      assert pieces[1..] == [];
      assert Original(pieces) == pieces[0].text + Original(pieces[1..]);
    } else {
      var s := spans[0];
      var rest := RenderByPieces(text, spans[1..], s.end);
      pieces := [Plain(text[pos..s.start]), Hidden(s.kind, text[s.start..s.end])] + rest;
      FollowsCons(text, spans, pos, rest);
      PrependPieces(text[pos..s.start], s.kind, text[s.start..s.end], rest);
      JoinThree(text, pos, s.start, s.end);
      assert Render(text, spans, pos) ==
             text[pos..s.start] + (Placeholder(s.kind) + Render(text, spans[1..], s.end)) by {
        Assoc(text[pos..s.start], Placeholder(s.kind), Render(text, spans[1..], s.end));
      }
    }
  }

  /** Main result of rewriting: the output is the input with every selected span, and nothing else,
      replaced by its placeholder; the uncovered text stays in place and in order. */
  lemma RedactionKeepsTheRest(rules: seq<Rule>, text: string)
    requires RulesOk(rules, text)
    ensures exists pieces ::
              && Follows(text, SpansOf(rules, text), 0, pieces)
              && Original(pieces) == text
              && Shown(pieces) == Redact(rules, text).text
  {
    SpansCorrect(rules, text);
    var pieces := RenderByPieces(text, SpansOf(rules, text), 0);
    assert text[0..] == text;
  }

  // ---- Counting ----

  ghost function Total(spans: seq<Span>, kinds: set<string>): nat {
    if kinds == {} then 0 else
      var k :| k in kinds;
      KindCount(spans, k) + Total(spans, kinds - {k})
  }

  function CountIn(spans: seq<Span>, kinds: set<string>): nat {
    if spans == [] then 0
    else (if spans[|spans| - 1].kind in kinds then 1 else 0) + CountIn(spans[..|spans| - 1], kinds)
  }

  lemma CountInSplit(spans: seq<Span>, kinds: set<string>, k: string)
    requires k in kinds
    ensures CountIn(spans, kinds) == KindCount(spans, k) + CountIn(spans, kinds - {k})
  {
  }

  lemma TotalIsCountIn(spans: seq<Span>, kinds: set<string>)
    ensures Total(spans, kinds) == CountIn(spans, kinds)
  {
    if kinds == {} {
      CountInNone(spans);
    } else {
      var k :| k in kinds && Total(spans, kinds) == KindCount(spans, k) + Total(spans, kinds - {k});
      CountInSplit(spans, kinds, k);
      TotalIsCountIn(spans, kinds - {k});
    }
  }

  lemma CountInNone(spans: seq<Span>)
    ensures CountIn(spans, {}) == 0
  {
  }

  lemma CountInAll(spans: seq<Span>, kinds: set<string>)
    requires Kinds(spans) <= kinds
    ensures CountIn(spans, kinds) == |spans|
  {
    if spans != [] {
      var front := spans[..|spans| - 1];
      assert spans[|spans| - 1].kind in Kinds(spans);
      assert Kinds(front) <= Kinds(spans) by {
        forall k | k in Kinds(front) ensures k in Kinds(spans) {
          var i :| 0 <= i < |front| && front[i].kind == k;
          assert spans[i].kind == k;
        }
      }
      CountInAll(front, kinds);
    }
  }

  /** The reported counts are per-kind totals of the selected spans and add up to their number. */
  lemma CountsAddUp(spans: seq<Span>)
    ensures CountsOf(spans).Keys == Kinds(spans)
    ensures forall k | k in CountsOf(spans) :: CountsOf(spans)[k] == KindCount(spans, k)
    ensures Total(spans, CountsOf(spans).Keys) == |spans|
  {
    CountInAll(spans, Kinds(spans));
    TotalIsCountIn(spans, Kinds(spans));
  }

  // ---- The loops ----

  method AnyOverlap(s: Span, taken: seq<Span>) returns (hit: bool)
    ensures hit <==> !Clear(s, taken)
  {
    hit := false;
    for i := 0 to |taken|
      invariant hit <==> exists j | 0 <= j < i :: Overlaps(s, taken[j])
    {
      if Overlaps(s, taken[i]) {
        hit := true;
      }
    }
  }

  method FindSpans(rules: seq<Rule>, text: string) returns (spans: seq<Span>)
    requires RulesOk(rules, text)
    ensures spans == SpansOf(rules, text)
  {
    var taken: seq<Span> := [];
    for r := 0 to |rules|
      invariant RulesOk(rules[r..], text)
      invariant TakeRules(rules[r..], text, taken) == TakeRules(rules, text, [])
    {
      var rule := rules[r];
      var ms := rule.find(text);
      assert rules[r..][0] == rule && rules[r..][1..] == rules[r + 1..];
      assert MatchesOk(ms, |text|);
      RulesOkTail(rules[r..], text);
      ghost var before := taken;
      for k := 0 to |ms|
        invariant TakeMatches(rule, text, ms[k..], taken) == TakeMatches(rule, text, ms, before)
      {
        assert ms[k..][0] == ms[k] && ms[k..][1..] == ms[k + 1..];
        var (s, e) := ms[k];
        if !rule.keep(text[s..e]) {
          var overlap := AnyOverlap(Span(s, e, rule.kind), taken);
          if !overlap {
            taken := taken + [Span(s, e, rule.kind)];
          }
        }
      }
    }
    spans := SortSpans(taken);
  }

  lemma RulesOkTail(rules: seq<Rule>, text: string)
    requires rules != [] && RulesOk(rules, text)
    ensures RulesOk(rules[1..], text)
  {
    var later := rules[1..];
    forall i | 0 <= i < |later| ensures MatchesOk(later[i].find(text), |text|) {
      assert later[i] == rules[i + 1];
    }
  }

  lemma CountsStep(spans: seq<Span>, s: Span)
    ensures var counts := CountsOf(spans);
            CountsOf(spans + [s]) == counts[s.kind := (if s.kind in counts then counts[s.kind] else 0) + 1]
  {
    var more := spans + [s];
    assert more[..|more| - 1] == spans;
    assert Kinds(more) == Kinds(spans) + {s.kind} by {
      forall k ensures k in Kinds(more) <==> k in Kinds(spans) + {s.kind} {
        if k in Kinds(spans) {
          var i :| 0 <= i < |spans| && spans[i].kind == k;
          assert more[i].kind == k;
        }
        if k == s.kind {
          assert more[|spans|].kind == k;
        }
      }
    }
    if s.kind !in Kinds(spans) {
      forall i | 0 <= i < |spans| ensures spans[i].kind != s.kind {
        assert spans[i].kind in Kinds(spans);
      }
      NoneCounted(spans, s.kind);
    }
  }

  lemma {:induction false} NoneCounted(spans: seq<Span>, kind: string)
    requires forall i | 0 <= i < |spans| :: spans[i].kind != kind
    ensures KindCount(spans, kind) == 0
  {
    if spans != [] {
      NoneCounted(spans[..|spans| - 1], kind);
    }
  }

  function EndBefore(spans: seq<Span>, i: nat): nat
    requires i <= |spans|
  {
    if i == 0 then 0 else spans[i - 1].end
  }

  /** The output after `i` spans, as the loop builds it. */
  function RenderTo(text: string, spans: seq<Span>, i: nat): string
    requires InBounds(spans, |text|) && Ordered(spans) && i <= |spans|
  {
    if i == 0 then ""
    else
      var s := spans[i - 1];
      assert EndBefore(spans, i - 1) <= s.start;
      RenderTo(text, spans, i - 1) + text[EndBefore(spans, i - 1)..s.start] + Placeholder(s.kind)
  }

  lemma SuffixInOrder(spans: seq<Span>, length: nat, i: nat)
    requires InBounds(spans, length) && Ordered(spans) && i <= |spans|
    ensures InBounds(spans[i..], length) && Ordered(spans[i..])
    ensures EndBefore(spans, i) <= length && (i < |spans| ==> EndBefore(spans, i) <= spans[i].start)
  {
  }

  ghost function RenderFrom(text: string, spans: seq<Span>, i: nat): string
    requires InBounds(spans, |text|) && Ordered(spans) && i <= |spans|
  {
    SuffixInOrder(spans, |text|, i);
    Render(text, spans[i..], EndBefore(spans, i))
  }

  lemma RenderFromStep(text: string, spans: seq<Span>, i: nat)
    requires InBounds(spans, |text|) && Ordered(spans) && i < |spans|
    ensures EndBefore(spans, i) <= spans[i].start < spans[i].end <= |text|
    ensures RenderFrom(text, spans, i) ==
            text[EndBefore(spans, i)..spans[i].start] + Placeholder(spans[i].kind) + RenderFrom(text, spans, i + 1)
  {
    SuffixInOrder(spans, |text|, i);
    SuffixInOrder(spans, |text|, i + 1);
    assert spans[i..][0] == spans[i] && spans[i..][1..] == spans[i + 1..];
  }

  lemma RenderToStep(text: string, spans: seq<Span>, i: nat)
    requires InBounds(spans, |text|) && Ordered(spans) && i < |spans|
    ensures EndBefore(spans, i) <= spans[i].start <= |text|
    ensures RenderTo(text, spans, i + 1) ==
            RenderTo(text, spans, i) + text[EndBefore(spans, i)..spans[i].start] + Placeholder(spans[i].kind)
  {
    SuffixInOrder(spans, |text|, i);
  }

  lemma RenderFromStart(text: string, spans: seq<Span>)
    requires InBounds(spans, |text|) && Ordered(spans)
    ensures RenderTo(text, spans, 0) + RenderFrom(text, spans, 0) == Render(text, spans, 0)
  {
    assert spans[0..] == spans;
  }

  /** What is moved piece by piece from one text to another keeps their concatenation. */
  lemma {:induction false} Telescopes(done: nat -> string, rest: nat -> string, piece: nat -> string, n: nat)
    requires forall i: nat | i < n :: done(i + 1) == done(i) + piece(i) && rest(i) == piece(i) + rest(i + 1)
    ensures done(n) + rest(n) == done(0) + rest(0)
  {
    if n > 0 {
      Telescopes(done, rest, piece, n - 1);
      Assoc(done(n - 1), piece(n - 1), rest(n));
      assert done(n - 1 + 1) == done(n - 1) + piece(n - 1);
    }
  }

  function SpanPiece(text: string, spans: seq<Span>, i: nat): string
    requires InBounds(spans, |text|) && Ordered(spans) && i < |spans|
  {
    SuffixInOrder(spans, |text|, i);
    text[EndBefore(spans, i)..spans[i].start] + Placeholder(spans[i].kind)
  }

  lemma PieceMoves(text: string, spans: seq<Span>, i: nat)
    requires InBounds(spans, |text|) && Ordered(spans) && i < |spans|
    ensures RenderTo(text, spans, i + 1) == RenderTo(text, spans, i) + SpanPiece(text, spans, i)
    ensures RenderFrom(text, spans, i) == SpanPiece(text, spans, i) + RenderFrom(text, spans, i + 1)
  {
    RenderToStep(text, spans, i);
    RenderFromStep(text, spans, i);
    Assoc(RenderTo(text, spans, i), text[EndBefore(spans, i)..spans[i].start], Placeholder(spans[i].kind));
  }

  ghost function DoneAt(text: string, spans: seq<Span>): nat -> string
    requires InBounds(spans, |text|) && Ordered(spans)
  {
    (i: nat) => if i <= |spans| then RenderTo(text, spans, i) else ""
  }

  ghost function RestAt(text: string, spans: seq<Span>): nat -> string
    requires InBounds(spans, |text|) && Ordered(spans)
  {
    (i: nat) => if i <= |spans| then RenderFrom(text, spans, i) else ""
  }

  ghost function PieceAt(text: string, spans: seq<Span>): nat -> string
    requires InBounds(spans, |text|) && Ordered(spans)
  {
    (i: nat) => if i < |spans| then SpanPiece(text, spans, i) else ""
  }

  lemma PieceAtMoves(text: string, spans: seq<Span>, i: nat)
    requires InBounds(spans, |text|) && Ordered(spans) && i < |spans|
    ensures DoneAt(text, spans)(i + 1) == DoneAt(text, spans)(i) + PieceAt(text, spans)(i)
    ensures RestAt(text, spans)(i) == PieceAt(text, spans)(i) + RestAt(text, spans)(i + 1)
  {
    PieceMoves(text, spans, i);
  }

  lemma AllMoved(text: string, spans: seq<Span>)
    requires InBounds(spans, |text|) && Ordered(spans)
    ensures DoneAt(text, spans)(|spans|) + RestAt(text, spans)(|spans|) ==
            DoneAt(text, spans)(0) + RestAt(text, spans)(0)
  {
    var done, rest, piece := DoneAt(text, spans), RestAt(text, spans), PieceAt(text, spans);
    forall i: nat | i < |spans| ensures done(i + 1) == done(i) + piece(i) && rest(i) == piece(i) + rest(i + 1) {
      PieceAtMoves(text, spans, i);
    }
    Telescopes(done, rest, piece, |spans|);
  }

  lemma RenderToIsRender(text: string, spans: seq<Span>)
    requires InBounds(spans, |text|) && Ordered(spans)
    ensures RenderTo(text, spans, |spans|) + RenderFrom(text, spans, |spans|) == Render(text, spans, 0)
  {
    AllMoved(text, spans);
    RenderFromStart(text, spans);
  }

  lemma NextSpan(text: string, spans: seq<Span>, i: nat)
    requires InBounds(spans, |text|) && Ordered(spans) && i < |spans|
    ensures EndBefore(spans, i) <= spans[i].start < spans[i].end <= |text|
    ensures var k, counts := spans[i].kind, CountsOf(spans[..i]);
            CountsOf(spans[..i + 1]) == counts[k := (if k in counts then counts[k] else 0) + 1]
  {
    assert spans[..i + 1] == spans[..i] + [spans[i]];
    CountsStep(spans[..i], spans[i]);
    SuffixInOrder(spans, |text|, i);
  }

  lemma RenderedToTheEnd(text: string, spans: seq<Span>)
    requires InBounds(spans, |text|) && Ordered(spans)
    ensures EndBefore(spans, |spans|) <= |text|
    ensures RenderTo(text, spans, |spans|) + text[EndBefore(spans, |spans|)..] == Render(text, spans, 0)
  {
    SuffixInOrder(spans, |text|, |spans|);
    RenderToIsRender(text, spans);
    assert spans[|spans|..] == [];
  }

  method RenderSpans(text: string, spans: seq<Span>) returns (out: string, counts: map<string, nat>)
    requires InBounds(spans, |text|) && Ordered(spans)
    ensures out == Render(text, spans, 0) && counts == CountsOf(spans)
  {
    out, counts := "", map[];
    var pos := 0;
    for i := 0 to |spans|
      invariant pos == EndBefore(spans, i) <= |text|
      invariant out == RenderTo(text, spans, i)
      invariant counts == CountsOf(spans[..i])
    {
      var s := spans[i];
      NextSpan(text, spans, i);
      RenderToStep(text, spans, i);
      out := out + text[pos..s.start] + Placeholder(s.kind);
      counts := counts[s.kind := (if s.kind in counts then counts[s.kind] else 0) + 1];
      pos := s.end;
    }
    RenderedToTheEnd(text, spans);
    assert spans[..|spans|] == spans;
    out := out + text[pos..];
  }

  method RedactPii(rules: seq<Rule>, text: string) returns (out: string, counts: map<string, nat>)
    requires RulesOk(rules, text)
    ensures Redacted(out, counts) == Redact(rules, text)
  {
    if text == "" {
      NothingInEmpty(rules);
      return text, map[];
    }
    SpansCorrect(rules, text);
    var spans := FindSpans(rules, text);
    out, counts := RenderSpans(text, spans);
  }

  lemma NothingInEmpty(rules: seq<Rule>)
    requires RulesOk(rules, "")
    ensures SpansOf(rules, "") == []
    ensures Redact(rules, "") == Redacted("", map[])
  {
    SpansCorrect(rules, "");
    var spans := SpansOf(rules, "");
    assert spans == [] || spans[0].end <= 0;
  }
}
