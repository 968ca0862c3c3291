/** String operations the services rely on, for ASCII letters and whitespace. */
module Text {

  function LowerChar(c: char): char {
    if 'A' <= c <= 'Z' then (c as int + 32) as char else c
  }

  function UpperChar(c: char): char {
    if 'a' <= c <= 'z' then (c as int - 32) as char else c
  }

  function Lower(s: string): string {
    seq(|s|, i requires 0 <= i < |s| => LowerChar(s[i]))
  }

  function Upper(s: string): string {
    seq(|s|, i requires 0 <= i < |s| => UpperChar(s[i]))
  }

  /** `s.replace(from, to)` for single characters */
  function ReplaceChar(s: string, from: char, to: char): string {
    seq(|s|, i requires 0 <= i < |s| => if s[i] == from then to else s[i])
  }

  predicate IsSpace(c: char) {
    c == ' ' || '\t' <= c <= '\r' || '\U{1C}' <= c <= '\U{1F}'
  }

  function StripLeft(s: string): string {
    if s != [] && IsSpace(s[0]) then StripLeft(s[1..]) else s
  }

  function StripRight(s: string): string {
    if s != [] && IsSpace(s[|s| - 1]) then StripRight(s[..|s| - 1]) else s
  }

  function Strip(s: string): string { StripRight(StripLeft(s)) }

  /** No whitespace at either end. */
  predicate Trimmed(s: string) {
    s == [] || (!IsSpace(s[0]) && !IsSpace(s[|s| - 1]))
  }

  ghost predicate Every(s: string, p: char -> bool) { forall i | 0 <= i < |s| :: p(s[i]) }

  lemma {:induction false} StripLeftTrims(s: string, p: char -> bool)
    ensures StripLeft(s) == [] || !IsSpace(StripLeft(s)[0])
    ensures Every(s, p) ==> Every(StripLeft(s), p)
  {
    if s != [] && IsSpace(s[0]) {
      StripLeftTrims(s[1..], p);
    }
  }

  lemma {:induction false} StripRightTrims(s: string, p: char -> bool)
    requires s == [] || !IsSpace(s[0])
    ensures Trimmed(StripRight(s))
    ensures Every(s, p) ==> Every(StripRight(s), p)
  {
    if s != [] && IsSpace(s[|s| - 1]) {
      StripRightTrims(s[..|s| - 1], p);
    }
  }

  /** Stripping leaves no outer whitespace and invents no character. */
  lemma StripTrims(s: string, p: char -> bool)
    ensures Trimmed(Strip(s))
    ensures Every(s, p) ==> Every(Strip(s), p)
  {
    StripLeftTrims(s, p);
    StripRightTrims(StripLeft(s), p);
  }

  lemma StripOfTrimmed(s: string)
    requires Trimmed(s)
    ensures Strip(s) == s
  {
  }

  predicate IsLower(s: string) { forall i | 0 <= i < |s| :: !('A' <= s[i] <= 'Z') }

  predicate IsUpper(s: string) { forall i | 0 <= i < |s| :: !('a' <= s[i] <= 'z') }

  lemma LowerOfLower(s: string)
    requires IsLower(s)
    ensures Lower(s) == s
  {
  }

  lemma UpperOfUpper(s: string)
    requires IsUpper(s)
    ensures Upper(s) == s
  {
  }

  predicate IsPrefix(a: string, s: string) { |a| <= |s| && s[..|a|] == a }

  /** `needle in s` */
  predicate Contains(s: string, needle: string) {
    IsPrefix(needle, s) || (s != [] && Contains(s[1..], needle))
  }

  /** A text contains every character of what it contains. */
  lemma {:induction false} ContainedChars(s: string, needle: string, c: char)
    requires Contains(s, needle) && c in needle
    ensures c in s
  {
    if IsPrefix(needle, s) {
      assert forall i | 0 <= i < |needle| :: needle[i] == s[..|needle|][i] == s[i];
    } else {
      ContainedChars(s[1..], needle, c);
    }
  }
}
