/** The string checks and canonical forms shared by the graph and the registry. */
module Text {

  predicate IsSpace(c: char) {
    ('\t' <= c && c <= '\r') || c == ' ' || c == '\U{85}' || c == '\U{A0}'
  }

  /** A C0 control, DEL or a C1 control. */
  predicate IsControl(c: char) {
    c < ' ' || c == '\U{7F}' || ('\U{80}' <= c && c <= '\U{9F}')
  }

  predicate IsHex(s: string) {
    forall i :: 0 <= i < |s| ==> ('0' <= s[i] && s[i] <= '9') || ('a' <= s[i] && s[i] <= 'f')
  }

  predicate AllHex(s: string, n: nat) {
    |s| == n && IsHex(s)
  }

  predicate HasControl(s: string) {
    exists i :: 0 <= i < |s| && IsControl(s[i])
  }

  function TrimLeft(s: string): string {
    if s != [] && IsSpace(s[0]) then TrimLeft(s[1..]) else s
  }

  function TrimRight(s: string): string {
    if s != [] && IsSpace(s[|s| - 1]) then TrimRight(s[..|s| - 1]) else s
  }

  function Trim(s: string): string {
    TrimRight(TrimLeft(s))
  }

  function LowerChar(c: char): char {
    if 'A' <= c && c <= 'Z' then c + ' ' else c
  }

  function UpperChar(c: char): char {
    if 'a' <= c && c <= 'z' then c - ' ' else c
  }

  function Lower(s: string): (r: string)
    ensures |r| == |s| && forall i :: 0 <= i < |s| ==> r[i] == LowerChar(s[i])
  {
    seq(|s|, i requires 0 <= i < |s| => LowerChar(s[i]))
  }

  function Upper(s: string): (r: string)
    ensures |r| == |s| && forall i :: 0 <= i < |s| ==> r[i] == UpperChar(s[i])
  {
    seq(|s|, i requires 0 <= i < |s| => UpperChar(s[i]))
  }

  ghost predicate Trimmed(s: string) {
    s != [] ==> !IsSpace(s[0]) && !IsSpace(s[|s| - 1])
  }

  lemma {:induction false} TrimRightKeepsFirst(s: string)
    requires s != [] && !IsSpace(s[0])
    ensures TrimRight(s) != [] && TrimRight(s)[0] == s[0]
    ensures !IsSpace(TrimRight(s)[|TrimRight(s)| - 1])
  {
    if IsSpace(s[|s| - 1]) {
      TrimRightKeepsFirst(s[..|s| - 1]);
    }
  }

  lemma {:induction false} TrimLeftTrims(s: string)
    ensures TrimLeft(s) != [] ==> !IsSpace(TrimLeft(s)[0])
  {
    if s != [] && IsSpace(s[0]) {
      TrimLeftTrims(s[1..]);
    }
  }

  lemma TrimTrims(s: string)
    ensures Trimmed(Trim(s))
  {
    TrimLeftTrims(s);
    if TrimLeft(s) != [] {
      TrimRightKeepsFirst(TrimLeft(s));
    }
  }

  /** Canonical forms are stable: trimming and folding a canonical string again changes
      nothing. */
  lemma TrimAndFoldAreStable(s: string)
    ensures Trim(Trim(s)) == Trim(s)
    ensures Lower(Trim(Lower(Trim(s)))) == Lower(Trim(s))
    ensures Upper(Trim(Upper(Trim(s)))) == Upper(Trim(s))
  {
    TrimTrims(s);
    var t := Trim(s);
    assert Trimmed(Lower(t)) && Trimmed(Upper(t));
  }

  /** Tabs, line ends, blanks, the next-line character and the no-break space. */
  ghost predicate AllSpace(s: string) {
    forall i :: 0 <= i < |s| ==> s[i] as int in {9, 10, 11, 12, 13, 0x20, 0x85, 0xa0}
  }

  lemma {:induction false} TrimLeftCuts(s: string) returns (left: string)
    ensures s == left + TrimLeft(s) && AllSpace(left)
  {
    left := "";
    if s != [] && IsSpace(s[0]) {
      var rest := TrimLeftCuts(s[1..]);
      left := [s[0]] + rest;
      assert s == [s[0]] + s[1..];
    }
  }

  lemma {:induction false} TrimRightCuts(s: string) returns (right: string)
    ensures s == TrimRight(s) + right && AllSpace(right)
  {
    right := "";
    if s != [] && IsSpace(s[|s| - 1]) {
      var rest := TrimRightCuts(s[..|s| - 1]);
      right := rest + [s[|s| - 1]];
      assert s == s[..|s| - 1] + [s[|s| - 1]];
    } else {
      assert s + "" == s;
    }
  }

  /** Each ASCII letter has one partner in the other case, thirty-two places away; nothing else is
      folded. */
  lemma CasesPairUp(c: char)
    ensures 'A' <= c <= 'Z' ==> LowerChar(c) as int == c as int + 0x20 && UpperChar(LowerChar(c)) == c
    ensures 'a' <= c <= 'z' ==> UpperChar(c) as int == c as int - 0x20 && LowerChar(UpperChar(c)) == c
    ensures LowerChar(c) != c ==> 'A' <= c <= 'Z'
    ensures UpperChar(c) != c ==> 'a' <= c <= 'z'
  {
  }

  /** Trimming cuts space at both ends, all of it, and nothing else. */
  lemma TrimCuts(s: string) returns (left: string, right: string)
    ensures s == left + Trim(s) + right && AllSpace(left) && AllSpace(right) && Trimmed(Trim(s))
  {
    left := TrimLeftCuts(s);
    right := TrimRightCuts(TrimLeft(s));
    TrimTrims(s);
    Regroup(s, left, TrimLeft(s), Trim(s), right);
  }

  lemma Regroup(s: string, left: string, t: string, middle: string, right: string)
    requires s == left + t && t == middle + right
    ensures s == left + middle + right
  {
  }
}
