/**
  Text as the planner sees it: the whitespace classification, blank tails, and the
  normalisation that fixes the coordinate system of every offset in the ledger.
*/
module SourceText {

  /** The characters that `str.isspace` and `str.strip` treat as whitespace. */
  predicate IsSpace(c: char) {
    || '\t' <= c <= '\r'
    || '\U{1C}' <= c <= ' '
    || c == '\U{85}' || c == '\U{A0}' || c == '\U{1680}'
    || '\U{2000}' <= c <= '\U{200A}'
    || c == '\U{2028}' || c == '\U{2029}' || c == '\U{202F}' || c == '\U{205F}' || c == '\U{3000}'
  }

  /** `not text.strip()` */
  predicate Blank(text: string) {
    forall i :: 0 <= i < |text| ==> IsSpace(text[i])
  }

  /** The text with its whitespace removed. */
  function Ink(text: string): string {
    if text == "" then ""
    else (if IsSpace(text[0]) then "" else [text[0]]) + Ink(text[1..])
  }

  lemma {:induction false} InkConcat(a: string, b: string)
    ensures Ink(a + b) == Ink(a) + Ink(b)
  {
    if a == "" {
      assert a + b == b;
    } else {
      InkConcat(a[1..], b);
      assert (a + b)[1..] == a[1..] + b;
    }
  }

  lemma {:induction false} BlankHasNoInk(text: string)
    ensures Blank(text) <==> Ink(text) == ""
  {
    if text != "" {
      BlankHasNoInk(text[1..]);
      assert forall i :: 0 < i < |text| ==> text[i] == text[1..][i - 1];
    }
  }

  /** Cutting a text anywhere splits its ink there. */
  lemma InkCut(text: string, at: nat)
    requires at <= |text|
    ensures Ink(text) == Ink(text[..at]) + Ink(text[at..])
  {
    hide Ink;
    InkConcat(text[..at], text[at..]);
    assert text[..at] + text[at..] == text;
  }

  /** `text.replace("\r\n", "\n")` */
  function ReplaceCrLf(text: string): string {
    if text == "" then ""
    else if text[0] == '\r' && |text| > 1 && text[1] == '\n' then "\n" + ReplaceCrLf(text[2..])
    else [text[0]] + ReplaceCrLf(text[1..])
  }

  /** `text.replace("\r", "\n")` */
  function ReplaceCr(text: string): string {
    seq(|text|, i requires 0 <= i < |text| => if text[i] == '\r' then '\n' else text[i])
  }

  /** Canonical composition `nfc` followed by newline unification. */
  function NormalizeSourceText(nfc: string -> string, text: string): string {
    ReplaceCr(ReplaceCrLf(nfc(text)))
  }
}
