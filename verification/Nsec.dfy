/**
 The names just before and just after a label, for minimally covering denial of
 existence.
 */
module Nsec {
  import opened Primitives

  /** Text, as the codes of its characters. */
  type Text = seq<nat>

  const MAX_NAME_SIZE := 63
  const DOT := 46
  const BACKSLASH := 92

  function Codes(s: string): Text {
    seq(|s|, i requires 0 <= i < |s| => s[i] as int)
  }

  predicate IsDigit(c: nat) { 48 <= c <= 57 }

  predicate IsUpper(c: nat) { 65 <= c <= 90 }

  predicate IsLetter(c: nat) { 97 <= c <= 122 }

  /** Hyphen and underscore. */
  predicate IsJoiner(c: nat) { c == 45 || c == 95 }

  function BLACKLIST(): set<Text> {
    {Codes("example"), Codes("invalid"), Codes("local"), Codes("localhost"), Codes("test")}
  }

  /** The labels that may be auctioned. */
  predicate IsName(s: Text) {
    && 0 < |s| <= MAX_NAME_SIZE
    && (forall i :: 0 <= i < |s| ==> IsDigit(s[i]) || IsLetter(s[i]) || IsJoiner(s[i]))
    && !IsJoiner(s[0]) && !IsJoiner(s[|s| - 1])
    && s !in BLACKLIST()
  }

  method VerifyString(s: Text) returns (ok: bool)
    ensures ok <==> IsName(s)
  {
    if |s| == 0 || |s| > MAX_NAME_SIZE { return false; }
    for i := 0 to |s|
      invariant forall j :: 0 <= j < i ==> IsDigit(s[j]) || IsLetter(s[j]) || IsJoiner(s[j])
      invariant i > 0 ==> !IsJoiner(s[0])
      invariant i == |s| ==> !IsJoiner(s[|s| - 1])
    {
      var ch := s[i];
      if ch >= 0x80 { return false; }
      if IsJoiner(ch) {
        if i == 0 || i == |s| - 1 { return false; }
      } else if !IsDigit(ch) && !IsLetter(ch) {
        return false;
      }
    }
    return s !in BLACKLIST();
  }

  function ToLower(s: Text): Text {
    seq(|s|, i requires 0 <= i < |s| => if IsUpper(s[i]) then s[i] + 32 else s[i])
  }

  function TrimFqdn(s: Text): Text {
    if s != [] && s[|s| - 1] == DOT then s[..|s| - 1] else s
  }

  function Fqdn(s: Text): Text {
    if s != [] && s[|s| - 1] == DOT then s else s + [DOT]
  }

  function NextName(name: Text): Text {
    var tld := TrimFqdn(ToLower(name));
    if |tld| == 63 then tld[..62] + [(tld[62] + 1) % 0x10000] + [DOT]
    else tld + Codes("\\000.")
  }

  /** The name of the root has no predecessor: an assertion fails. */
  function PrevName(name: Text): Outcome<Text> {
    var tld := TrimFqdn(ToLower(name));
    if tld == [] then AssertFail
    else
      var n := |tld| - 1;
      var less := tld[..n] + [(tld[n] + 0xffff) % 0x10000];
      Accept(Fqdn(if |less| < 63 then less + Codes("\\255") else less))
  }

  /** The octets that a name in text form stands for: a backslash and three
      digits are one octet, and the dot at the end is none. */
  function Octets(s: Text): seq<nat> {
    if s == [] || s == [DOT] then []
    else if s[0] == BACKSLASH && |s| >= 4 && IsDigit(s[1]) && IsDigit(s[2]) && IsDigit(s[3]) then
      [100 * (s[1] - 48) + 10 * (s[2] - 48) + (s[3] - 48)] + Octets(s[4..])
    else [s[0]] + Octets(s[1..])
  }

  /** The canonical order of section 6.1 of RFC 4034, for single labels: octets are
      compared from the left, capitals as small letters, and a missing octet
      comes before any. */
  predicate Below(a: seq<nat>, b: seq<nat>) {
    b != [] && (a == [] || Small(a[0]) < Small(b[0]) || (Small(a[0]) == Small(b[0]) && Below(a[1..], b[1..])))
  }

  function Small(c: nat): nat {
    if 65 <= c <= 90 then c + 32 else c
  }

  // ---------------------------------------------------------------------
  // The neighbours of a label
  // ---------------------------------------------------------------------

  /** Text without backslashes and dots stands for itself. */
  predicate IsPlain(s: Text) {
    forall i :: 0 <= i < |s| ==> s[i] != BACKSLASH && s[i] != DOT
  }

  lemma {:induction false} PlainOctets(s: Text, rest: Text)
    requires IsPlain(s)
    ensures Octets(s + rest) == s + Octets(rest)
  {
    if s == [] {
      assert s + rest == rest && [] + Octets(rest) == Octets(rest);
    } else {
      PlainOctets(s[1..], rest);
      assert (s + rest)[1..] == s[1..] + rest;
      assert s + Octets(rest) == [s[0]] + (s[1..] + Octets(rest));
    }
  }

  lemma NameIsPlain(s: Text)
    requires IsName(s)
    ensures 0 < |s| <= MAX_NAME_SIZE && IsPlain(s) && ToLower(s) == s && TrimFqdn(s) == s
    ensures forall i :: 0 <= i < |s| ==> 45 <= s[i] <= 122 && Small(s[i]) == s[i]
    ensures IsDigit(s[|s| - 1]) || IsLetter(s[|s| - 1])
  {
  }

  /** All but the last octet. */
  function Stem(s: Text): seq<nat>
    requires s != []
  {
    s[..|s| - 1]
  }

  lemma NextOctets(s: Text)
    requires IsName(s)
    ensures Octets(NextName(s)) == if |s| == 63 then Stem(s) + [s[62] + 1] else s + [0]
  {
    hide BLACKLIST;
    NameIsPlain(s);
    if |s| == 63 {
      PlainOctets(s[..62] + [s[62] + 1], [DOT]);
      assert Stem(s) + [s[62] + 1] + [] == Stem(s) + [s[62] + 1];
    } else {
      PlainOctets(s, Codes("\\000."));
      EscapeOf(0, Codes("\\000."), [DOT]);
    }
  }

  lemma EscapeOf(n: nat, escape: Text, rest: Text)
    requires n < 1000 && escape == [BACKSLASH, 48 + n / 100, 48 + n / 10 % 10, 48 + n % 10] + rest
    requires rest == [DOT]
    ensures Octets(escape) == [n]
  {
  }

  lemma OctetsOfDot()
    ensures Octets([DOT]) == []
  {
  }

  lemma PrevOctets(s: Text)
    requires IsName(s)
    ensures PrevName(s).Accept?
    ensures var n := |s| - 1;
            Octets(PrevName(s).value) == Stem(s) + [s[n] - 1] + if |s| == 63 then [] else [255]
  {
    hide BLACKLIST, IsName, Octets, ToLower, TrimFqdn;
    NameIsPlain(s);
    OctetsOfDot();
    var n := |s| - 1;
    var less := s[..n] + [s[n] - 1];
    assert IsPlain(less);
    if |s| == 63 {
      PlainOctets(less, [DOT]);
      assert less + [] == less;
    } else {
      var escape := Codes("\\255");
      assert less + escape + [DOT] == less + (escape + [DOT]);
      PlainOctets(less, escape + [DOT]);
      EscapeOf(255, escape + [DOT], [DOT]);
    }
  }

  /** Comparing after a common front. */
  lemma {:induction false} BelowAfter(front: seq<nat>, a: seq<nat>, b: seq<nat>)
    ensures Below(front + a, front + b) <==> Below(a, b)
  {
    if front == [] {
      assert front + a == a && front + b == b;
    } else {
      BelowAfter(front[1..], a, b);
      assert (front + a)[1..] == front[1..] + a && (front + b)[1..] == front[1..] + b;
    }
  }

  /** Between two texts with a common front lie only texts with that front. */
  lemma {:induction false} BetweenShares(front: seq<nat>, a: seq<nat>, x: seq<nat>, b: seq<nat>)
    requires Below(front + a, x) && Below(x, front + b)
    requires forall i :: 0 <= i < |x| ==> Small(x[i]) == x[i]
    requires forall i :: 0 <= i < |front| ==> Small(front[i]) == front[i]
    ensures |front| <= |x| && x[..|front|] == front
  {
    if front != [] {
      assert (front + a)[1..] == front[1..] + a && (front + b)[1..] == front[1..] + b;
      BetweenShares(front[1..], a, x[1..], b);
      assert x == [x[0]] + x[1..];
    }
  }

  /** The neighbours enclose the label, and no other label. */
  lemma MinimalCover(s: Text, x: Text)
    requires IsName(s) && IsName(x)
    ensures PrevName(s).Accept?
    ensures var prev, next := Octets(PrevName(s).value), Octets(NextName(s));
            && Below(prev, s) && Below(s, next)
            && (Below(prev, x) && Below(x, next) <==> x == s)
  {
    hide BLACKLIST, Codes, NextName, PrevName, Octets, IsName, Below, IsPlain, ToLower, TrimFqdn;
    PrevOctets(s);
    NextOctets(s);
    NameIsPlain(s);
    NameIsPlain(x);
    var n := |s| - 1;
    var stem, last := Stem(s), s[n];
    var low := if |s| == 63 then [last - 1] else [last - 1, 255];
    var high := if |s| == 63 then [last + 1] else [last, 0];
    var prev, next := stem + low, stem + high;
    assert Octets(PrevName(s).value) == prev;
    assert Octets(NextName(s)) == next;
    assert s == stem + [last];
    Around(|s|, last);
    BelowAfter(stem, low, [last]);
    BelowAfter(stem, [last], high);
    if Below(prev, x) && Below(x, next) {
      BetweenShares(stem, low, x, high);
      var tail := x[n..];
      assert x == stem + tail;
      BelowAfter(stem, low, tail);
      BelowAfter(stem, tail, high);
      OnlyLast(|s|, last, tail);
    }
  }

  lemma Around(length: nat, last: nat)
    requires IsDigit(last) || IsLetter(last)
    ensures Below(if length == 63 then [last - 1] else [last - 1, 255], [last])
    ensures Below([last], if length == 63 then [last + 1] else [last, 0])
  {
  }

  lemma OnlyLast(length: nat, last: nat, tail: seq<nat>)
    requires 1 <= length <= 63 && length - 1 + |tail| <= 63
    requires IsDigit(last) || IsLetter(last)
    requires forall i :: 0 <= i < |tail| ==> 45 <= tail[i] <= 122 && Small(tail[i]) == tail[i]
    requires Below(if length == 63 then [last - 1] else [last - 1, 255], tail)
    requires Below(tail, if length == 63 then [last + 1] else [last, 0])
    ensures tail == [last]
  {
  }
}
