/** The string operations the services use, as Python defines them. */
module Text {
  import opened Common

  predicate IsSpace(c: char) {
    || '\t' <= c <= '\r'
    || '\U{1C}' <= c <= ' '
    || c == '\U{85}' || c == '\U{A0}' || c == '\U{1680}'
    || '\U{2000}' <= c <= '\U{200A}'
    || c == '\U{2028}' || c == '\U{2029}' || c == '\U{202F}' || c == '\U{205F}' || c == '\U{3000}'
  }

  function StripLeft(s: string, space: char -> bool): string {
    if s != "" && space(s[0]) then StripLeft(s[1..], space) else s
  }

  function StripRight(s: string, space: char -> bool): string {
    if s != "" && space(s[|s| - 1]) then StripRight(s[..|s| - 1], space) else s
  }

  function StripBoth(s: string, space: char -> bool): string {
    StripRight(StripLeft(s, space), space)
  }

  /** `s.strip()` */
  function Strip(s: string): string {
    StripBoth(s, IsSpace)
  }

  /** Neither end of a string is a space. */
  predicate Trimmed(s: string, space: char -> bool) {
    s != "" ==> !space(s[0]) && !space(s[|s| - 1])
  }

  lemma {:induction false} StripRightTrims(s: string, space: char -> bool)
    requires s != "" ==> !space(s[0])
    ensures Trimmed(StripRight(s, space), space) && StripRight(s, space) <= s
  {
    if s != "" && space(s[|s| - 1]) {
      StripRightTrims(s[..|s| - 1], space);
    }
  }

  lemma {:induction false} StripLeftTrims(s: string, space: char -> bool)
    ensures StripLeft(s, space) != "" ==> !space(StripLeft(s, space)[0])
  {
    if s != "" && space(s[0]) {
      StripLeftTrims(s[1..], space);
    }
  }

  lemma StripBothTrims(s: string, space: char -> bool)
    ensures Trimmed(StripBoth(s, space), space)
    ensures Trimmed(s, space) ==> StripBoth(s, space) == s
  {
    StripLeftTrims(s, space);
    StripRightTrims(StripLeft(s, space), space);
  }

  lemma StripTrims(s: string)
    ensures Trimmed(Strip(s), IsSpace)
    ensures Strip(Strip(s)) == Strip(s)
  {
    StripBothTrims(s, IsSpace);
    StripBothTrims(Strip(s), IsSpace);
  }

  predicate AllSpace(s: string, space: char -> bool) {
    forall i | 0 <= i < |s| :: space(s[i])
  }

  /** `t` is `s` without some spaces around it. */
  ghost predicate Unpadded(s: string, t: string, space: char -> bool) {
    exists left, right :: s == left + t + right && AllSpace(left, space) && AllSpace(right, space)
  }

  lemma {:induction false} StripLeftCuts(s: string, space: char -> bool) returns (cut: string)
    ensures s == cut + StripLeft(s, space) && AllSpace(cut, space)
  {
    cut := "";
    if s != "" && space(s[0]) {
      var rest := StripLeftCuts(s[1..], space);
      cut := [s[0]] + rest;
    }
  }

  lemma {:induction false} StripRightCuts(s: string, space: char -> bool) returns (cut: string)
    ensures s == StripRight(s, space) + cut && AllSpace(cut, space)
  {
    cut := "";
    if s != "" && space(s[|s| - 1]) {
      var rest := StripRightCuts(s[..|s| - 1], space);
      cut := rest + [s[|s| - 1]];
    }
  }

  lemma {:induction false} StripLeftIs(left: string, t: string, space: char -> bool)
    requires AllSpace(left, space) && (t != "" ==> !space(t[0]))
    ensures StripLeft(left + t, space) == t
  {
    if left == "" {
      assert left + t == t;
    } else {
      assert (left + t)[1..] == left[1..] + t;
      StripLeftIs(left[1..], t, space);
    }
  }

  lemma {:induction false} StripRightIs(t: string, right: string, space: char -> bool)
    requires AllSpace(right, space) && (t != "" ==> !space(t[|t| - 1]))
    ensures StripRight(t + right, space) == t
  {
    if right == "" {
      assert t + right == t;
    } else {
      assert (t + right)[..|t + right| - 1] == t + right[..|right| - 1];
      StripRightIs(t, right[..|right| - 1], space);
    }
  }

  /** Whatever the spaces around a trimmed text, stripping gives that text. */
  lemma StripBothIs(left: string, t: string, right: string, space: char -> bool)
    requires AllSpace(left, space) && AllSpace(right, space) && t != "" && Trimmed(t, space)
    ensures StripBoth(left + t + right, space) == t
  {
    assert left + t + right == left + (t + right);
    StripLeftIs(left, t + right, space);
    StripRightIs(t, right, space);
  }

  /** Stripping takes spaces off both ends, all of them, and nothing else. */
  lemma StripVerdict(s: string)
    ensures Unpadded(s, Strip(s), IsSpace) && Trimmed(Strip(s), IsSpace)
  {
    StripTrims(s);
    var left := StripLeftCuts(s, IsSpace);
    var right := StripRightCuts(StripLeft(s, IsSpace), IsSpace);
    assert s == left + Strip(s) + right;
  }

  /** Not blank: some character is no space. */
  predicate HasText(s: string) {
    exists i :: 0 <= i < |s| && !IsSpace(s[i])
  }

  lemma StripsToNothing(s: string)
    ensures Strip(s) != "" <==> HasText(s)
  {
    StripVerdict(s);
    var left, right :| s == left + Strip(s) + right && AllSpace(left, IsSpace) && AllSpace(right, IsSpace);
    if Strip(s) != "" {
      assert s[|left|] == Strip(s)[0];
    }
  }

  /** `value or default` */
  function Or(s: Option<string>, default: string): string {
    match s
    case Some(t) => if t == "" then default else t
    case None => default
  }

  /** `value or ""`, stripped. */
  function Clean(s: Option<string>): string {
    Strip(Or(s, ""))
  }

  function NonEmpty(s: string): Option<string> {
    if s == "" then None else Some(s)
  }

  function LowerChar(c: char): char {
    if 'A' <= c <= 'Z' then c - 'A' + 'a' else c
  }

  /** Lower case, for ASCII letters. */
  function Lower(s: string): (r: string)
    ensures |r| == |s|
  {
    seq(|s|, i requires 0 <= i < |s| => LowerChar(s[i]))
  }

  /** Lower case changes capital letters alone. */
  lemma LowerVerdict(s: string, i: nat)
    requires i < |s|
    ensures if 'A' <= s[i] <= 'Z' then Lower(s)[i] as int == s[i] as int + 32 else Lower(s)[i] == s[i]
  {
    assert 'a' as int - 'A' as int == 32;
  }
}
