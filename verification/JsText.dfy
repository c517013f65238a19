/** Strings of the source language: sequences of 16-bit code units. */
module JsText {

  type Unit = n: int | 0 <= n < 0x1_0000
  type Text = seq<Unit>

  // White space and line terminators, as trimming knows them.
  predicate IsSpace(u: Unit) {
    || 0x09 <= u <= 0x0D || u == 0x20 || u == 0xA0 || u == 0x1680 || 0x2000 <= u <= 0x200A
    || u == 0x2028 || u == 0x2029 || u == 0x202F || u == 0x205F || u == 0x3000 || u == 0xFEFF
  }

  function TrimStart(s: Text): Text
    decreases |s|
  {
    if s != [] && IsSpace(s[0]) then TrimStart(s[1..]) else s
  }

  function TrimEnd(s: Text): Text
    decreases |s|
  {
    if s != [] && IsSpace(s[|s| - 1]) then TrimEnd(s[..|s| - 1]) else s
  }

  function Trim(s: Text): Text { TrimEnd(TrimStart(s)) }

  // How much white space a string begins with, and ends with.
  function Leading(s: Text): nat
    decreases |s|
  {
    if s != [] && IsSpace(s[0]) then 1 + Leading(s[1..]) else 0
  }

  function Trailing(s: Text): nat
    decreases |s|
  {
    if s != [] && IsSpace(s[|s| - 1]) then 1 + Trailing(s[..|s| - 1]) else 0
  }

  lemma {:induction false} TrimStartMeans(s: Text)
    ensures var n := Leading(s);
            && n <= |s| && TrimStart(s) == s[n..] && (forall i :: 0 <= i < n ==> IsSpace(s[i]))
            && (n < |s| ==> !IsSpace(s[n]))
    decreases |s|
  {
    if s != [] && IsSpace(s[0]) {
      TrimStartMeans(s[1..]);
    }
  }

  lemma {:induction false} TrimEndMeans(s: Text)
    ensures var n := Trailing(s);
            && n <= |s| && TrimEnd(s) == s[..|s| - n] && (forall i :: |s| - n <= i < |s| ==> IsSpace(s[i]))
            && (n < |s| ==> !IsSpace(s[|s| - n - 1]))
    decreases |s|
  {
    if s != [] && IsSpace(s[|s| - 1]) {
      TrimEndMeans(s[..|s| - 1]);
    }
  }

  /** Trimming leaves the middle of a string: everything cut off on either side is white space, and what
      is left has none at its ends. */
  lemma TrimMeans(s: Text) returns (before: Text, after: Text)
    ensures s == before + Trim(s) + after
    ensures (forall u :: u in before ==> IsSpace(u)) && (forall u :: u in after ==> IsSpace(u))
    ensures Trim(s) != [] ==> !IsSpace(Trim(s)[0]) && !IsSpace(Trim(s)[|Trim(s)| - 1])
  {
    TrimStartMeans(s);
    var t, n := TrimStart(s), Leading(s);
    TrimEndMeans(t);
    before, after := s[..n], t[|t| - Trailing(t)..];
  }

  /** White space is these twenty-five code units. */
  lemma SpacesMean(u: Unit)
    ensures IsSpace(u) <==>
            u in [0x09, 0x0A, 0x0B, 0x0C, 0x0D, 0x20, 0xA0, 0x1680, 0x2000, 0x2001, 0x2002, 0x2003, 0x2004, 0x2005, 0x2006, 0x2007,
                  0x2008, 0x2009, 0x200A, 0x2028, 0x2029, 0x202F, 0x205F, 0x3000, 0xFEFF]
  {
  }

  // ---- The order of sorting: by code units, a proper prefix first ----

  predicate Less(a: Text, b: Text)
    decreases |a|
  {
    b != [] && (a == [] || a[0] < b[0] || (a[0] == b[0] && Less(a[1..], b[1..])))
  }

  lemma {:induction false} LessTotal(a: Text, b: Text)
    ensures Less(a, b) || a == b || Less(b, a)
    ensures !(Less(a, b) && Less(b, a)) && !Less(a, a)
    decreases |a|
  {
    if a != [] {
      if b != [] {
        LessTotal(a[1..], b[1..]);
        assert a == [a[0]] + a[1..] && b == [b[0]] + b[1..];
      }
      LessTotal(a[1..], a[1..]);
    }
  }

  lemma {:induction false} LessTransitive(a: Text, b: Text, c: Text)
    requires Less(a, b) && Less(b, c)
    ensures Less(a, c)
    decreases |a|
  {
    if a != [] && a[0] == b[0] == c[0] {
      LessTransitive(a[1..], b[1..], c[1..]);
    }
  }

  ghost predicate Ascending(ks: seq<Text>) {
    forall i, j :: 0 <= i < j < |ks| ==> Less(ks[i], ks[j])
  }

  // A non-empty finite set of strings has a greatest element.
  lemma {:induction false} Greatest(s: set<Text>) returns (m: Text)
    requires s != {}
    ensures m in s && forall k :: k in s && k != m ==> Less(k, m)
    decreases |s|
  {
    m :| m in s;
    if s != {m} {
      var rest := s - {m};
      var n := Greatest(rest);
      LessTotal(m, n);
      if Less(m, n) {
        m := n;
      } else {
        forall k | k in s && k != m ensures Less(k, m) {
          if k != n {
            LessTransitive(k, n, m);
          }
        }
      }
    }
  }
}
