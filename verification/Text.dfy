/** The parts of Go's strings package the models use, on strings of code points. */
module Text {

  /** unicode.IsSpace. */
  predicate IsSpace(c: char) {
    var n := c as int;
    || 0x09 <= n <= 0x0D || n == 0x20 || n == 0x85 || n == 0xA0 || n == 0x1680
    || 0x2000 <= n <= 0x200A || n == 0x2028 || n == 0x2029 || n == 0x202F || n == 0x205F || n == 0x3000
  }

  /** The length of the UTF-8 encoding, which is what len gives. */
  function ByteLength(s: string): nat
    decreases |s|
  {
    if s == [] then 0 else ByteLength(s[..|s| - 1]) + CharLength(s[|s| - 1])
  }

  function CharLength(c: char): nat {
    var n := c as int;
    if n < 0x80 then 1 else if n < 0x800 then 2 else if n < 0x1_0000 then 3 else 4
  }

  function TrimLeft(s: string): string {
    if s != [] && IsSpace(s[0]) then TrimLeft(s[1..]) else s
  }

  function TrimRight(s: string): string
    decreases |s|
  {
    if s != [] && IsSpace(s[|s| - 1]) then TrimRight(s[..|s| - 1]) else s
  }

  function TrimSpace(s: string): string { TrimRight(TrimLeft(s)) }

  lemma {:induction false} TrimLeftStarts(s: string)
    ensures TrimLeft(s) != "" ==> !IsSpace(TrimLeft(s)[0])
  {
    if s != [] && IsSpace(s[0]) {
      TrimLeftStarts(s[1..]);
    }
  }

  lemma {:induction false} TrimRightEnds(s: string)
    ensures TrimRight(s) <= s && (TrimRight(s) != "" ==> !IsSpace(TrimRight(s)[|TrimRight(s)| - 1]))
    decreases |s|
  {
    if s != [] && IsSpace(s[|s| - 1]) {
      TrimRightEnds(s[..|s| - 1]);
    }
  }

  ghost predicate AllSpace(s: string) { forall i :: 0 <= i < |s| ==> IsSpace(s[i]) }

  lemma {:induction false} TrimLeftDrops(s: string) returns (l: string)
    ensures s == l + TrimLeft(s) && AllSpace(l)
  {
    l := "";
    if s != [] && IsSpace(s[0]) {
      var rest := TrimLeftDrops(s[1..]);
      l := [s[0]] + rest;
      assert s == [s[0]] + s[1..];
    }
  }

  lemma {:induction false} TrimRightDrops(s: string) returns (r: string)
    ensures s == TrimRight(s) + r && AllSpace(r)
    decreases |s|
  {
    r := "";
    if s != [] && IsSpace(s[|s| - 1]) {
      var rest := TrimRightDrops(s[..|s| - 1]);
      r := rest + [s[|s| - 1]];
      assert s == s[..|s| - 1] + [s[|s| - 1]];
    }
  }

  /** White space and nothing else is dropped from both ends, and all of it. */
  lemma TrimmedEnds(s: string) returns (l: string, r: string)
    ensures s == l + TrimSpace(s) + r && AllSpace(l) && AllSpace(r)
    ensures var t := TrimSpace(s); t != "" ==> !IsSpace(t[0]) && !IsSpace(t[|t| - 1])
  {
    TrimLeftStarts(s);
    TrimRightEnds(TrimLeft(s));
    l := TrimLeftDrops(s);
    r := TrimRightDrops(TrimLeft(s));
  }

  lemma TrimSolid(s: string)
    requires s != [] && !IsSpace(s[0]) && !IsSpace(s[|s| - 1])
    ensures TrimSpace(s) == s
  {
  }

  /** strings.Join with a one-character separator. */
  function Join(parts: seq<string>, sep: char): string
    decreases |parts|
  {
    if parts == [] then ""
    else if |parts| == 1 then parts[0]
    else Join(parts[..|parts| - 1], sep) + [sep] + parts[|parts| - 1]
  }

  /** strings.Split with a one-character separator: never empty. */
  function Split(s: string, sep: char): (parts: seq<string>)
    ensures parts != []
    decreases |s|
  {
    if s == [] then [""]
    else
      var parts := Split(s[..|s| - 1], sep);
      var c := s[|s| - 1];
      if c == sep then parts + [""]
      else ExtendLast(parts, [c])
  }

  /** The segments contain no separator. */
  ghost predicate Free(parts: seq<string>, sep: char) {
    forall i :: 0 <= i < |parts| ==> sep !in parts[i]
  }

  lemma {:induction false} SplitFree(s: string, sep: char)
    ensures Free(Split(s, sep), sep)
    decreases |s|
  {
    if s != [] {
      SplitFree(s[..|s| - 1], sep);
    }
  }

  function ExtendLast(parts: seq<string>, t: string): seq<string>
    requires parts != []
  {
    parts[|parts| - 1 := parts[|parts| - 1] + t]
  }

  lemma ExtendByNothing(parts: seq<string>)
    requires parts != []
    ensures ExtendLast(parts, []) == parts
  {
    assert parts[|parts| - 1] + [] == parts[|parts| - 1];
  }

  lemma ExtendLastTwice(parts: seq<string>, t: string, u: string)
    requires parts != []
    ensures ExtendLast(ExtendLast(parts, t), u) == ExtendLast(parts, t + u)
  {
    assert parts[|parts| - 1] + t + u == parts[|parts| - 1] + (t + u);
  }

  lemma SplitSnoc(s: string, c: char, sep: char)
    ensures Split(s + [c], sep) == if c == sep then Split(s, sep) + [""] else ExtendLast(Split(s, sep), [c])
  {
    assert (s + [c])[..|s|] == s;
  }

  /** Appending a separator-free text extends the last segment. */
  lemma {:induction false} SplitExtend(s: string, t: string, sep: char)
    requires sep !in t
    ensures Split(s + t, sep) == ExtendLast(Split(s, sep), t)
    decreases |t|
  {
    if t == [] {
      assert s + t == s;
      ExtendByNothing(Split(s, sep));
    } else {
      var p, c := t[..|t| - 1], t[|t| - 1];
      SplitExtend(s, p, sep);
      ExtendOne(s, p, c, sep);
      assert t == p + [c];
    }
  }

  lemma ExtendOne(s: string, t: string, c: char, sep: char)
    requires c != sep && Split(s + t, sep) == ExtendLast(Split(s, sep), t)
    ensures Split(s + (t + [c]), sep) == ExtendLast(Split(s, sep), t + [c])
  {
    SplitSnoc(s + t, c, sep);
    assert s + (t + [c]) == s + t + [c];
    ExtendLastTwice(Split(s, sep), t, [c]);
  }

  /** A separator between two texts splits them apart. */
  lemma {:induction false} SplitAcross(s: string, t: string, sep: char)
    ensures Split(s + [sep] + t, sep) == Split(s, sep) + Split(t, sep)
    decreases |t|
  {
    if t == [] {
      assert s + [sep] + t == s + [sep];
      SplitSnoc(s, sep, sep);
    } else {
      var p, c := t[..|t| - 1], t[|t| - 1];
      SplitAcross(s, p, sep);
      AcrossOne(s + [sep], Split(s, sep), p, c, sep);
      assert t == p + [c];
    }
  }

  lemma AcrossOne(s: string, before: seq<string>, t: string, c: char, sep: char)
    requires Split(s + t, sep) == before + Split(t, sep)
    ensures Split(s + (t + [c]), sep) == before + Split(t + [c], sep)
  {
    SplitSnoc(s + t, c, sep);
    SplitSnoc(t, c, sep);
    assert s + (t + [c]) == s + t + [c];
    if c == sep {
      assert before + Split(t, sep) + [""] == before + (Split(t, sep) + [""]);
    } else {
      assert ExtendLast(before + Split(t, sep), [c]) == before + ExtendLast(Split(t, sep), [c]);
    }
  }

  lemma {:induction false} SplitJoin(parts: seq<string>, sep: char)
    requires parts != [] && Free(parts, sep)
    ensures Split(Join(parts, sep), sep) == parts
    decreases |parts|
  {
    var init, last := parts[..|parts| - 1], parts[|parts| - 1];
    SplitWhole(last, sep);
    assert parts == init + [last];
    if init != [] {
      SplitJoin(init, sep);
      JoinSnoc(init, last, sep);
      SplitAcross(Join(init, sep), last, sep);
    }
  }

  lemma SplitWhole(s: string, sep: char)
    requires sep !in s
    ensures Split(s, sep) == [s]
  {
    SplitExtend("", s, sep);
    assert "" + s == s;
  }

  lemma JoinSnoc(parts: seq<string>, x: string, sep: char)
    requires parts != []
    ensures Join(parts + [x], sep) == Join(parts, sep) + [sep] + x
  {
    assert (parts + [x])[..|parts|] == parts;
  }

  lemma JoinExtend(parts: seq<string>, c: char, sep: char)
    requires parts != []
    ensures Join(ExtendLast(parts, [c]), sep) == Join(parts, sep) + [c]
  {
    var q := ExtendLast(parts, [c]);
    assert q[..|q| - 1] == parts[..|parts| - 1];
  }

  lemma {:induction false} JoinSplit(s: string, sep: char)
    ensures Join(Split(s, sep), sep) == s
    decreases |s|
  {
    if s != [] {
      var p, c := s[..|s| - 1], s[|s| - 1];
      JoinSplit(p, sep);
      if c == sep {
        assert (Split(p, sep) + [""])[..|Split(p, sep)|] == Split(p, sep);
      } else {
        JoinExtend(Split(p, sep), c, sep);
      }
    }
  }
}
