/** Stripping, and texts with something besides white space in them. */
module Texts {

  type Space = char -> bool

  function StripLeft(space: Space, s: string): string {
    if s != "" && space(s[0]) then StripLeft(space, s[1..]) else s
  }

  function StripRight(space: Space, s: string): string {
    if s != "" && space(s[|s| - 1]) then StripRight(space, s[..|s| - 1]) else s
  }

  /** `s.strip()` */
  function Strip(space: Space, s: string): string {
    StripRight(space, StripLeft(space, s))
  }

  ghost predicate Inked(space: Space, s: string) {
    exists i :: 0 <= i < |s| && !space(s[i])
  }

  lemma {:induction false} StripLeftInk(space: Space, s: string)
    ensures Inked(space, StripLeft(space, s)) <==> Inked(space, s)
    ensures StripLeft(space, s) != "" <==> Inked(space, s)
  {
    if s != "" && space(s[0]) {
      StripLeftInk(space, s[1..]);
      if Inked(space, s) {
        var i :| 0 <= i < |s| && !space(s[i]);
        assert s[1..][i - 1] == s[i];
      }
      if Inked(space, s[1..]) {
        var i :| 0 <= i < |s[1..]| && !space(s[1..][i]);
        assert s[i + 1] == s[1..][i];
      }
    } else if s != "" {
      assert !space(s[0]);
    }
  }

  lemma {:induction false} StripRightInk(space: Space, s: string)
    ensures Inked(space, StripRight(space, s)) <==> Inked(space, s)
    ensures StripRight(space, s) != "" <==> Inked(space, s)
  {
    if s != "" && space(s[|s| - 1]) {
      var t := s[..|s| - 1];
      StripRightInk(space, t);
      if Inked(space, s) {
        var i :| 0 <= i < |s| && !space(s[i]);
        assert t[i] == s[i];
      }
      if Inked(space, t) {
        var i :| 0 <= i < |t| && !space(t[i]);
        assert s[i] == t[i];
      }
    } else if s != "" {
      assert !space(s[|s| - 1]);
    }
  }

  /** Stripping leaves something exactly when there is something besides white space. */
  lemma StripInk(space: Space, s: string)
    ensures Inked(space, Strip(space, s)) <==> Inked(space, s)
    ensures Strip(space, s) != "" <==> Inked(space, s)
  {
    StripLeftInk(space, s);
    StripRightInk(space, StripLeft(space, s));
  }

  lemma InkInPart(space: Space, a: string, b: string)
    requires Inked(space, a)
    ensures Inked(space, a + b)
  {
    var i :| 0 <= i < |a| && !space(a[i]);
    assert (a + b)[i] == a[i];
  }

  ghost predicate Blank(space: Space, s: string) {
    forall i :: 0 <= i < |s| ==> space(s[i])
  }

  lemma {:induction false} StripLeftRest(space: Space, s: string) returns (a: string)
    ensures Blank(space, a) && s == a + StripLeft(space, s)
    ensures StripLeft(space, s) != "" ==> !space(StripLeft(space, s)[0])
  {
    if s != "" && space(s[0]) {
      var rest := StripLeftRest(space, s[1..]);
      a := [s[0]] + rest;
      assert s == [s[0]] + s[1..];
    } else {
      a := "";
    }
  }

  lemma {:induction false} StripRightRest(space: Space, s: string) returns (b: string)
    ensures Blank(space, b) && s == StripRight(space, s) + b
    ensures StripRight(space, s) != "" ==> !space(StripRight(space, s)[|StripRight(space, s)| - 1])
  {
    if s != "" && space(s[|s| - 1]) {
      var rest := StripRightRest(space, s[..|s| - 1]);
      b := rest + [s[|s| - 1]];
      assert s == s[..|s| - 1] + [s[|s| - 1]];
    } else {
      b := "";
      assert s == s + b;
    }
  }

  /** Stripping takes the white space off both ends and nothing else. */
  lemma StripIsMiddle(space: Space, s: string) returns (a: string, b: string)
    ensures Blank(space, a) && Blank(space, b) && s == a + Strip(space, s) + b
    ensures var t := Strip(space, s); t != "" ==> !space(t[0]) && !space(t[|t| - 1])
  {
    var left := StripLeft(space, s);
    a := StripLeftRest(space, s);
    b := StripRightRest(space, left);
    assert a + (StripRight(space, left) + b) == a + StripRight(space, left) + b;
    if Strip(space, s) != "" {
      assert left[0] == StripRight(space, left)[0];
    }
  }
}
