/** The social security number pattern (services/ai/ai_guardrails.py, kind SSN): a concrete rule for
    which streaming is shown to agree with batch redaction outright. Letters and digits are ASCII. */
module SsnMatcher {
  import opened PatternScan
  import opened Redaction
  import opened StreamRedaction

  predicate IsDigit(c: char) { '0' <= c <= '9' }

  predicate IsWord(c: char) { IsDigit(c) || 'a' <= c <= 'z' || 'A' <= c <= 'Z' || c == '_' }

  predicate Digits(text: string, i: nat, n: nat)
    requires i + n <= |text|
  {
    forall k | i <= k < i + n :: IsDigit(text[k])
  }

  /** The pattern matches the eleven characters at `i`: no area 000, 666 or 9xx, no group 00, no serial 0000,
      and a word boundary on both sides. */
  predicate MatchAt(text: string, i: nat) {
    && i + 11 <= |text|
    && Digits(text, i, 3) && text[i + 3] == '-' && Digits(text, i + 4, 2) && text[i + 6] == '-'
       && Digits(text, i + 7, 4)
    && text[i..i + 3] != "000" && text[i..i + 3] != "666" && text[i] != '9'
    && text[i + 4..i + 6] != "00" && text[i + 7..i + 11] != "0000"
    && (i == 0 || !IsWord(text[i - 1]))
    && (i + 11 == |text| || !IsWord(text[i + 11]))
  }

  function Ends(text: string): nat -> nat { (i: nat) => if MatchAt(text, i) then i + 11 else 0 }

  function Find(text: string): seq<(nat, nat)> { Scan(Ends(text), |text|, 0) }

  function SsnRule(): Rule { Rule("SSN", text => Find(text), _ => false) }

  function SsnRules(): seq<Rule> { [SsnRule()] }

  lemma MatchesNeverOverlap(text: string, i: nat, j: nat)
    requires MatchAt(text, i) && i < j < i + 11
    ensures !MatchAt(text, j)
  {
    if j == i + 4 {
      assert text[j + 2] == '-';
    } else if j == i + 7 {
      assert j + 11 <= |text| ==> IsDigit(text[i + 10]) && text[j + 3] == text[i + 10];
    } else if j == i + 3 || j == i + 6 {
      assert text[j] == '-';
    } else {
      assert IsDigit(text[j - 1]);
    }
  }

  lemma FindFinds(text: string, m: (nat, nat))
    ensures m in Find(text) <==> m.1 == m.0 + 11 && MatchAt(text, m.0)
  {
    var ends := Ends(text);
    forall j: nat, k: nat | j < k < ends(j) ensures ends(k) == 0 {
      MatchesNeverOverlap(text, j, k);
    }
    if m in Find(text) {
      ScanIsSound(ends, |text|, 0, m);
    }
    if m.1 == m.0 + 11 && MatchAt(text, m.0) {
      ScanIsComplete(ends, |text|, 0, m);
    }
  }

  lemma SsnWellFormed()
    ensures WellFormed(SsnRules())
  {
    forall text: string ensures RulesOk(SsnRules(), text) {
      ScanInOrder(Ends(text), |text|, 0);
    }
  }

  ghost predicate IsSsn(text: string, t: Span) {
    MatchAt(text, t.start) && t == Span(t.start, t.start + 11, "SSN")
  }

  /** The selected spans are exactly the places where the pattern matches. */
  lemma SsnSpans(text: string)
    ensures RulesOk(SsnRules(), text)
    ensures var spans := SpansOf(SsnRules(), text);
            Ordered(spans) && InBounds(spans, |text|) && forall t :: t in spans <==> IsSsn(text, t)
  {
    SsnWellFormed();
    assert RulesOk(SsnRules(), text);
    SpansCorrect(SsnRules(), text);
    var spans := SpansOf(SsnRules(), text);
    forall t ensures t in spans <==> IsSsn(text, t) {
      if t in spans {
        var q: nat :| q < 1 && Redactable(SsnRules(), text, q, t);
        FindFinds(text, (t.start, t.end));
      }
      if IsSsn(text, t) {
        FindFinds(text, (t.start, t.end));
        assert Redactable(SsnRules(), text, 0, t);
        assert Covered(SsnRules(), text, 0, t, spans);
      }
    }
  }

  // ---- Locality ----

  /** The eleven characters of a match; `left` and `right` say whether there are word boundaries beside them. */
  predicate MatchIn(w: string, left: bool, right: bool)
    requires |w| == 11
  {
    && Digits(w, 0, 3) && w[3] == '-' && Digits(w, 4, 2) && w[6] == '-' && Digits(w, 7, 4)
    && w[0..3] != "000" && w[0..3] != "666" && w[0] != '9' && w[4..6] != "00" && w[7..11] != "0000"
    && left && right
  }

  lemma DigitsInWindow(text: string, i: nat, j: nat, n: nat)
    requires i + 11 <= |text| && j + n <= 11
    ensures Digits(text, i + j, n) <==> Digits(text[i..i + 11], j, n)
  {
    var w := text[i..i + 11];
    assert forall k | i + j <= k < i + j + n :: text[k] == w[k - i];
    assert forall k | j <= k < j + n :: w[k] == text[i + k];
  }

  lemma SlicesInWindow(text: string, i: nat, j: nat, k: nat)
    requires i + 11 <= |text| && j <= k <= 11
    ensures text[i..i + 11][j..k] == text[i + j..i + k]
  {
    var inner, outer := text[i..i + 11][j..k], text[i + j..i + k];
    assert |inner| == |outer| && forall m | 0 <= m < |inner| :: inner[m] == outer[m];
  }

  lemma WindowMatch(text: string, i: nat)
    requires i + 11 <= |text|
    ensures MatchAt(text, i) <==>
            MatchIn(text[i..i + 11], i == 0 || !IsWord(text[i - 1]), i + 11 == |text| || !IsWord(text[i + 11]))
  {
    DigitsInWindow(text, i, 0, 3);
    DigitsInWindow(text, i, 4, 2);
    DigitsInWindow(text, i, 7, 4);
    SlicesInWindow(text, i, 0, 3);
    SlicesInWindow(text, i, 4, 6);
    SlicesInWindow(text, i, 7, 11);
  }

  /** Whether the pattern matches depends on thirteen characters only. */
  lemma SameWindow(text: string, i: nat, text': string, i': nat)
    requires i + 11 <= |text| && i' + 11 <= |text'| && text[i..i + 11] == text'[i'..i' + 11]
    requires (i == 0 || !IsWord(text[i - 1])) <==> (i' == 0 || !IsWord(text'[i' - 1]))
    requires (i + 11 == |text| || !IsWord(text[i + 11])) <==> (i' + 11 == |text'| || !IsWord(text'[i' + 11]))
    ensures MatchAt(text, i) <==> MatchAt(text', i')
  {
    WindowMatch(text, i);
    WindowMatch(text', i');
  }

  /** A place where the pattern's search can be split: whitespace, the start of a match, or the start of a longer
      number. */
  ghost predicate Edge(text: string, cut: nat) {
    && cut < |text|
    && (IsBreak(text[cut]) || MatchAt(text, cut)
        || (cut + 4 <= |text| && Digits(text, cut, 4) && (cut == 0 || !IsDigit(text[cut - 1]))))
  }

  lemma NoDigitBeforeEdge(text: string, cut: nat)
    requires Edge(text, cut) && cut > 0 && !IsBreak(text[cut])
    ensures !IsDigit(text[cut - 1]) && IsDigit(text[cut])
  {
  }

  lemma LastIsDigit(text: string, i: nat)
    requires MatchAt(text, i)
    ensures IsDigit(text[i + 10]) && text[i + 3] == '-'
  {
  }

  lemma LeftOfCut(text: string, cut: nat, i: nat)
    requires Edge(text, cut) && i + 11 <= cut
    ensures MatchAt(text[..cut], i) <==> MatchAt(text, i)
  {
    if i + 11 == cut && !IsBreak(text[cut]) {
      NoDigitBeforeEdge(text, cut);
      assert text[..cut][i + 10] == text[cut - 1];
      if MatchAt(text, i) {
        LastIsDigit(text, i);
      }
      if MatchAt(text[..cut], i) {
        LastIsDigit(text[..cut], i);
      }
    } else {
      assert text[..cut][i..i + 11] == text[i..i + 11];
      SameWindow(text[..cut], i, text, i);
    }
  }

  lemma RightOfCut(text: string, cut: nat, i: nat)
    requires Edge(text, cut) && cut <= i && i + 11 <= |text|
    ensures MatchAt(text[cut..], i - cut) <==> MatchAt(text, i)
  {
    if i == cut && IsBreak(text[cut]) {
      assert text[cut..][0] == text[cut];
    } else if i == cut && !MatchAt(text, cut) {
      assert text[cut..][3] == text[cut + 3] && IsDigit(text[cut + 3]);
    } else {
      assert text[cut..][i - cut..i - cut + 11] == text[i..i + 11];
      assert i > cut ==> text[cut..][i - cut - 1] == text[i - 1];
      assert i + 11 < |text| ==> text[cut..][i - cut + 11] == text[i + 11];
      SameWindow(text[cut..], i - cut, text, i);
    }
  }

  lemma BufferWindow(buffer: string, more: string, i: nat)
    requires i + 11 < |buffer|
    ensures MatchAt(buffer + more, i) <==> MatchAt(buffer, i)
  {
    assert (buffer + more)[i..i + 11] == buffer[i..i + 11];
    SameWindow(buffer + more, i, buffer, i);
  }

  lemma LeftEnds(text: string, cut: nat)
    requires Edge(text, cut)
    ensures forall i: nat | i < cut && Ends(text)(i) <= cut :: Ends(text[..cut])(i) == Ends(text)(i)
  {
    forall i: nat | i < cut && Ends(text)(i) <= cut ensures Ends(text[..cut])(i) == Ends(text)(i) {
      if i + 11 <= cut {
        LeftOfCut(text, cut, i);
      }
    }
  }

  lemma RightEnds(text: string, cut: nat)
    requires Edge(text, cut)
    ensures forall i: nat | i >= cut ::
              Ends(text[cut..])(i - cut) == if Ends(text)(i) == 0 then 0 else Ends(text)(i) - cut
  {
    forall i: nat | i >= cut
      ensures Ends(text[cut..])(i - cut) == if Ends(text)(i) == 0 then 0 else Ends(text)(i) - cut
    {
      if i + 11 <= |text| {
        RightOfCut(text, cut, i);
      }
    }
  }

  lemma EndsAgree(text: string, cut: nat)
    requires Edge(text, cut)
    ensures AgreesAt(Ends, text, cut)
  {
    LeftEnds(text, cut);
    RightEnds(text, cut);
  }

  lemma EdgeOfBuffer(buffer: string, more: string, cut: nat)
    requires Edge(buffer, cut) && cut + HOLD <= |buffer|
    ensures Edge(buffer + more, cut)
  {
    BufferWindow(buffer, more, cut);
  }

  lemma EndsBeforeCut(buffer: string, more: string, cut: nat)
    requires cut + HOLD <= |buffer|
    ensures SameBefore(Ends, buffer + more, buffer, cut)
  {
    forall j: nat | j < cut ensures Ends(buffer + more)(j) == Ends(buffer)(j) {
      BufferWindow(buffer, more, j);
    }
  }

  lemma SsnSearches()
    ensures SearchesBy(SsnRule(), Ends)
  {
  }

  /** Wherever the pattern's search can be split it is local: no match is longer than what is held back. */
  lemma SsnIsLocalAt(buffer: string, more: string, cut: nat)
    requires Edge(buffer, cut) && cut + HOLD <= |buffer|
    ensures LocalAt(SsnRule(), buffer, more, cut)
  {
    EdgeOfBuffer(buffer, more, cut);
    EndsAgree(buffer + more, cut);
    EndsBeforeCut(buffer, more, cut);
    SsnSearches();
    SearchIsLocalAt(SsnRule(), Ends, buffer, more, cut);
  }

  lemma SsnRuleIsLocal()
    ensures LocalRules(SsnRules())
  {
    forall buffer: string, more: string, cut: nat | Place(SsnRules(), buffer, cut)
      ensures LocalAt(SsnRules()[0], buffer, more, cut)
    {
      if !IsBreak(buffer[cut]) {
        var r, m :| 0 <= r < |SsnRules()| && m in SsnRules()[r].find(buffer) && m.0 == cut;
        FindFinds(buffer, m);
      }
      SsnIsLocalAt(buffer, more, cut);
    }
  }

  lemma SsnSelectsAll()
    ensures WellFormed(SsnRules()) && SelectsAll(SsnRules())
  {
    SsnWellFormed();
    forall text: string, r, m | RulesOk(SsnRules(), text) && 0 <= r < |SsnRules()| && m in SsnRules()[r].find(text)
      ensures Span(m.0, m.1, SsnRules()[r].kind) in SpansOf(SsnRules(), text)
    {
      FindFinds(text, m);
      SsnSpans(text);
      assert IsSsn(text, Span(m.0, m.1, "SSN"));
    }
  }

  /** Alone in the list, the social security number rule is local and selects all its matches, so streaming agrees with
      batch redaction on every run that stays under MAX_BUFFER. */
  lemma SsnStreamsLikeBatch()
    ensures WellFormed(SsnRules()) && LocalRules(SsnRules()) && StreamingIsBatch(SsnRules())
  {
    SsnRuleIsLocal();
    SsnSelectsAll();
    SelectedRunsStreamLikeBatch(SsnRules());
  }
}
