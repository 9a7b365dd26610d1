/**
  PostgreSQL text[] literals: the printer Value and the parser Scan.  Strings are
  sequences of code points, so the model covers valid UTF-8; every character the
  byte-wise parser looks for is ASCII.
 */
module PgArray {
  import opened Wrappers
  import opened Text

  datatype Error = CannotScan | InvalidLiteral | NullElement

  /** A column value as the driver hands it over. */
  datatype Source = SqlNull | SqlText(s: string) | SqlBytes(s: string) | SqlOther

  /** The driver hands the text over, as a string or as bytes. */
  predicate HasText(src: Source, s: string) { src == SqlText(s) || src == SqlBytes(s) }

  /** None is the nil slice. */
  type TextArray = Option<seq<string>>

  // ---------------------------------------------------------------- parsing

  /** An element as scanned: its text and whether some of it was quoted. */
  datatype Raw = Raw(text: string, quoted: bool)

  datatype Scanner = Scanner(result: seq<Raw>, current: string, inQuote: bool, escaped: bool, quoted: bool)

  const Start := Scanner([], "", false, false, false)

  function Feed(p: Scanner, c: char): Scanner {
    if p.escaped then p.(current := p.current + [c], escaped := false)
    else if c == '\\' then p.(escaped := true)
    else if c == '"' then p.(inQuote := !p.inQuote, quoted := true)
    else if c == ',' && !p.inQuote then Scanner(Flushed(p), "", p.inQuote, p.escaped, false)
    else p.(current := p.current + [c])
  }

  function Flushed(p: Scanner): seq<Raw> { p.result + [Raw(p.current, p.quoted)] }

  function FeedAll(p: Scanner, s: string): Scanner
    decreases |s|
  {
    if s == [] then p else Feed(FeedAll(p, s[..|s| - 1]), s[|s| - 1])
  }

  function Lower(c: char): char {
    if 'A' <= c <= 'Z' then (c as int + 32) as char else c
  }

  /** strings.EqualFold(s, "NULL"): N, U and L fold only with n, u and l. */
  predicate IsNull(s: string) {
    |s| == 4 && Lower(s[0]) == 'n' && Lower(s[1]) == 'u' && Lower(s[2]) == 'l' && Lower(s[3]) == 'l'
  }

  function Kept(r: Raw): string { if r.quoted then r.text else TrimSpace(r.text) }

  predicate IsNullElement(r: Raw) { !r.quoted && IsNull(TrimSpace(r.text)) }

  /** The values of the scanned elements, or an error if one is an unquoted NULL. */
  function Values(rs: seq<Raw>): Result<seq<string>, Error> {
    if exists i :: 0 <= i < |rs| && IsNullElement(rs[i]) then Err(NullElement)
    else Ok(seq(|rs|, i requires 0 <= i < |rs| => Kept(rs[i])))
  }

  function Parsed(s: string): Result<seq<string>, Error> { Values(Flushed(FeedAll(Start, s))) }

  function Scanned(src: Source): Result<TextArray, Error> {
    match src
    case SqlNull => Ok(None)
    case SqlOther => Err(CannotScan)
    case _ =>
      var s := TrimSpace(src.s);
      if s == "{}" then Ok(Some([]))
      else if |s| < 2 || s[0] != '{' || s[|s| - 1] != '}' then Err(InvalidLiteral)
      else
        match Parsed(s[1..|s| - 1])
        case Ok(es) => Ok(Some(es))
        case Err(e) => Err(e)
  }

  // ---------------------------------------------------------------- printing

  predicate IsSpecial(c: char) { c in "{},\"\\ \t\n" }

  predicate NeedsQuote(s: string) { s == "" || exists i :: 0 <= i < |s| && IsSpecial(s[i]) }

  function Escaped(s: string): string
    decreases |s|
  {
    if s == [] then ""
    else Escaped(s[..|s| - 1]) + EscapedChar(s[|s| - 1])
  }

  function EscapedChar(c: char): string { if c == '"' || c == '\\' then ['\\', c] else [c] }

  function Printed(s: string, quoted: bool): string { if quoted then ['"'] + Escaped(s) + ['"'] else s }

  function PrintedAll(es: seq<string>, quoted: seq<bool>): seq<string>
    requires |es| == |quoted|
  {
    seq(|es|, i requires 0 <= i < |es| => Printed(es[i], quoted[i]))
  }

  /** An array literal that quotes the elements `quoted` says. */
  function Literal(es: seq<string>, quoted: seq<bool>): string
    requires |es| == |quoted|
  {
    "{" + Join(PrintedAll(es, quoted), ',') + "}"
  }

  function ValueQuotes(es: seq<string>): (qs: seq<bool>)
    ensures |qs| == |es|
  {
    seq(|es|, i requires 0 <= i < |es| => NeedsQuote(es[i]))
  }

  /** TextArray.Value: nil becomes SQL NULL. */
  function Value(a: TextArray): Option<string> {
    match a case None => None case Some(es) => Some(Literal(es, ValueQuotes(es)))
  }

  /** What the driver hands back for a written value. */
  predicate StoredAs(v: Option<string>, src: Source) {
    match v case None => src == SqlNull case Some(s) => HasText(src, s)
  }

  // ---------------------------------------------------------------- what the scanner makes of printed elements

  lemma {:induction false} FeedAppend(p: Scanner, s: string, t: string)
    ensures FeedAll(p, s + t) == FeedAll(FeedAll(p, s), t)
    decreases |t|
  {
    if t == [] {
      assert s + t == s;
    } else {
      FeedAppend(p, s, t[..|t| - 1]);
      assert (s + t)[..|s + t| - 1] == s + t[..|t| - 1];
    }
  }

  lemma FeedOne(p: Scanner, c: char)
    ensures FeedAll(p, [c]) == Feed(p, c)
  {
    assert [c][..0] == [];
  }

  /** Text that may stand unquoted. */
  ghost predicate Plain(s: string) {
    forall i :: 0 <= i < |s| ==> s[i] != '"' && s[i] != '\\' && s[i] != ','
  }

  lemma {:induction false} FeedPlain(p: Scanner, s: string)
    requires !p.inQuote && !p.escaped && Plain(s)
    ensures FeedAll(p, s) == p.(current := p.current + s)
    decreases |s|
  {
    if s == [] {
      assert p.current + s == p.current;
    } else {
      FeedPlain(p, s[..|s| - 1]);
    }
  }

  lemma FeedBackslash(p: Scanner, c: char)
    requires !p.escaped
    ensures FeedAll(p, ['\\', c]) == p.(current := p.current + [c])
  {
    assert ['\\', c][..1] == ['\\'];
    FeedOne(p, '\\');
  }

  lemma FeedEscapedChar(p: Scanner, c: char)
    requires p.inQuote && !p.escaped
    ensures FeedAll(p, EscapedChar(c)) == p.(current := p.current + [c])
  {
    if c == '"' || c == '\\' {
      FeedBackslash(p, c);
    } else {
      FeedOne(p, c);
    }
  }

  lemma {:induction false} FeedEscaped(p: Scanner, s: string)
    requires p.inQuote && !p.escaped
    ensures FeedAll(p, Escaped(s)) == p.(current := p.current + s)
    decreases |s|
  {
    if s == [] {
      assert p.current + s == p.current;
    } else {
      var t, c := s[..|s| - 1], s[|s| - 1];
      FeedEscaped(p, t);
      assert Escaped(s) == Escaped(t) + EscapedChar(c);
      FeedAppend(p, Escaped(t), EscapedChar(c));
      FeedEscapedChar(FeedAll(p, Escaped(t)), c);
      assert (p.current + t) + [c] == p.current + s;
    }
  }

  lemma FeedPrinted(p: Scanner, s: string, quoted: bool)
    requires !p.inQuote && !p.escaped && !p.quoted && p.current == "" && (quoted || Plain(s))
    ensures FeedAll(p, Printed(s, quoted)) == p.(current := s, quoted := quoted)
  {
    if quoted {
      FeedAppend(p, ['"'] + Escaped(s), ['"']);
      FeedAppend(p, ['"'], Escaped(s));
      FeedOne(p, '"');
      var m := Feed(p, '"');
      FeedEscaped(m, s);
      FeedOne(FeedAll(m, Escaped(s)), '"');
    } else {
      FeedPlain(p, s);
    }
  }

  ghost predicate Printable(es: seq<string>, quoted: seq<bool>) {
    |es| == |quoted| && forall i :: 0 <= i < |es| ==> quoted[i] || Plain(es[i])
  }

  function Raws(es: seq<string>, quoted: seq<bool>): seq<Raw>
    requires |es| == |quoted|
  {
    seq(|es|, i requires 0 <= i < |es| => Raw(es[i], quoted[i]))
  }

  /** A comma and one more printed element. */
  lemma FeedNext(init: string, m: Scanner, e: string, quoted: bool)
    requires FeedAll(Start, init) == m && !m.inQuote && !m.escaped && (quoted || Plain(e))
    ensures FeedAll(Start, init + [','] + Printed(e, quoted)) == Scanner(Flushed(m), e, false, false, quoted)
  {
    FeedAppend(Start, init + [','], Printed(e, quoted));
    FeedAppend(Start, init, [',']);
    FeedOne(m, ',');
    FeedPrinted(Feed(m, ','), e, quoted);
  }

  /** `m` is the scanner after the elements `es` printed and joined. */
  ghost predicate ScannedTo(m: Scanner, es: seq<string>, quoted: seq<bool>)
    requires |es| == |quoted|
  {
    Flushed(m) == Raws(es, quoted) && !m.inQuote && !m.escaped
  }

  lemma FeedFirst(e: string, quoted: bool)
    requires quoted || Plain(e)
    ensures ScannedTo(FeedAll(Start, Printed(e, quoted)), [e], [quoted])
  {
    FeedPrinted(Start, e, quoted);
  }

  lemma PrintedSnoc(es: seq<string>, quoted: seq<bool>, e: string, q: bool)
    requires |es| == |quoted|
    ensures PrintedAll(es + [e], quoted + [q]) == PrintedAll(es, quoted) + [Printed(e, q)]
    ensures Raws(es + [e], quoted + [q]) == Raws(es, quoted) + [Raw(e, q)]
  {
  }

  /** Scanning printed elements finds the elements, untouched, and which were quoted. */
  lemma {:induction false} FeedJoined(es: seq<string>, quoted: seq<bool>)
    requires es != [] && Printable(es, quoted)
    ensures ScannedTo(FeedAll(Start, Join(PrintedAll(es, quoted), ',')), es, quoted)
    decreases |es|
  {
    var n := |es|;
    if n == 1 {
      FeedFirst(es[0], quoted[0]);
      assert es == [es[0]] && quoted == [quoted[0]];
    } else {
      var es', qs', e, q := es[..n - 1], quoted[..n - 1], es[n - 1], quoted[n - 1];
      FeedJoined(es', qs');
      assert es == es' + [e] && quoted == qs' + [q];
      PrintedSnoc(es', qs', e, q);
      JoinSnoc(PrintedAll(es', qs'), Printed(e, q), ',');
      var init := Join(PrintedAll(es', qs'), ',');
      FeedNext(init, FeedAll(Start, init), e, q);
    }
  }

  lemma ElementsOfJoined(es: seq<string>, quoted: seq<bool>)
    requires es != [] && Printable(es, quoted)
    ensures Flushed(FeedAll(Start, Join(PrintedAll(es, quoted), ','))) == Raws(es, quoted)
  {
    FeedJoined(es, quoted);
  }

  lemma JoinedIsNotEmpty(es: seq<string>, quoted: seq<bool>)
    requires es != [] && Printable(es, quoted) && (forall i :: 0 <= i < |es| && es[i] == "" ==> quoted[i])
    ensures Join(PrintedAll(es, quoted), ',') != ""
  {
    ElementsOfJoined(es, quoted);
    assert Flushed(FeedAll(Start, "")) == [Raw("", false)];
    assert Raws(es, quoted)[0] == Raw(es[0], quoted[0]);
  }

  /** An element survives printing and scanning if it is quoted, or is its own trim and not NULL. */
  predicate Survives(e: string, quoted: bool) { quoted || (TrimSpace(e) == e && !IsNull(e)) }

  /** However elements are chosen to be quoted, as long as the literal is well formed, scanning
      it gives the elements back exactly when each unquoted one is its own trim and not NULL. */
  lemma LiteralRoundTripIff(es: seq<string>, quoted: seq<bool>, src: Source)
    requires Printable(es, quoted) && (forall i :: 0 <= i < |es| && es[i] == "" ==> quoted[i])
    requires HasText(src, Literal(es, quoted))
    ensures Scanned(src) == Ok(Some(es)) <==> forall i :: 0 <= i < |es| ==> Survives(es[i], quoted[i])
  {
    var s := Literal(es, quoted);
    TrimSolid(s);
    if es == [] {
      assert s == "{}";
    } else {
      var body := Join(PrintedAll(es, quoted), ',');
      JoinedIsNotEmpty(es, quoted);
      assert s[1..|s| - 1] == body && |s| > 2;
      ElementsOfJoined(es, quoted);
      SurvivalIff(es, quoted);
    }
  }

  lemma SurvivalIff(es: seq<string>, quoted: seq<bool>)
    requires |es| == |quoted|
    ensures Values(Raws(es, quoted)) == Ok(es) <==> forall i :: 0 <= i < |es| ==> Survives(es[i], quoted[i])
  {
    var rs := Raws(es, quoted);
    if Values(rs) == Ok(es) {
      forall i | 0 <= i < |es| ensures Survives(es[i], quoted[i]) {
        assert Values(rs).value[i] == Kept(rs[i]);
        assert !IsNullElement(rs[i]);
      }
    }
    if forall i :: 0 <= i < |es| ==> Survives(es[i], quoted[i]) {
      forall i | 0 <= i < |es| ensures Kept(rs[i]) == es[i] && !IsNullElement(rs[i]) {
        assert Survives(es[i], quoted[i]);
      }
      assert Values(rs).value == es;
    }
  }

  lemma ValueIsPrintable(es: seq<string>)
    ensures Printable(es, ValueQuotes(es)) && forall i :: 0 <= i < |es| && es[i] == "" ==> ValueQuotes(es)[i]
  {
    forall i | 0 <= i < |es| ensures ValueQuotes(es)[i] || Plain(es[i]) {
      if !NeedsQuote(es[i]) {
        forall j | 0 <= j < |es[i]| ensures es[i][j] != '"' && es[i][j] != '\\' && es[i][j] != ',' {
          assert !IsSpecial(es[i][j]);
        }
      }
    }
  }

  /** What Value writes, Scan reads back unchanged exactly when every element that Value leaves
      unquoted is its own whitespace trim and no case variant of NULL. */
  lemma ValueRoundTripIff(a: TextArray, src: Source)
    requires StoredAs(Value(a), src)
    ensures Scanned(src) == Ok(a) <==>
      a.Some? ==> forall i :: 0 <= i < |a.value| ==> Survives(a.value[i], NeedsQuote(a.value[i]))
  {
    if a.Some? {
      ValueIsPrintable(a.value);
      LiteralRoundTripIff(a.value, ValueQuotes(a.value), src);
      assert forall i :: 0 <= i < |a.value| ==> ValueQuotes(a.value)[i] == NeedsQuote(a.value[i]);
    }
  }

  /** Different arrays never print alike, not even those that do not scan back; so nil, the
      empty array and the array of one empty string stay apart. */
  lemma ValueIsInjective(a: TextArray, b: TextArray)
    requires Value(a) == Value(b)
    ensures a == b
  {
    if a.Some? && b.Some? {
      var es, fs := a.value, b.value;
      ValueIsPrintable(es);
      ValueIsPrintable(fs);
      var x, y := Join(PrintedAll(es, ValueQuotes(es)), ','), Join(PrintedAll(fs, ValueQuotes(fs)), ',');
      assert x == Value(a).value[1..|Value(a).value| - 1] == Value(b).value[1..|Value(b).value| - 1] == y;
      if es != [] {
        JoinedIsNotEmpty(es, ValueQuotes(es));
        ElementsOfJoined(es, ValueQuotes(es));
      }
      if fs != [] {
        JoinedIsNotEmpty(fs, ValueQuotes(fs));
        ElementsOfJoined(fs, ValueQuotes(fs));
      }
      if es != [] && fs != [] {
        var rs := Raws(es, ValueQuotes(es));
        assert rs == Raws(fs, ValueQuotes(fs));
        assert |es| == |rs| == |fs|;
        forall i | 0 <= i < |es| ensures es[i] == fs[i] {
          assert rs[i] == Raw(es[i], ValueQuotes(es)[i]) == Raw(fs[i], ValueQuotes(fs)[i]);
        }
        assert es == fs;
      }
    }
  }

  /** A carriage return is left unquoted by Value and trimmed away by Scan. */
  lemma EdgeReturnIsLost(src: Source)
    requires StoredAs(Value(Some(["\r"])), src)
    ensures Scanned(src) != Ok(Some(["\r"]))
  {
    var e := "\r";
    assert !NeedsQuote(e);
    assert TrimLeft(e) == TrimLeft(e[1..]) == "";
    ValueRoundTripIff(Some([e]), src);
    assert [e][0] == e && !Survives(e, NeedsQuote(e));
  }

  /** A role called null is written as an unquoted NULL and cannot be read back. */
  lemma BareNullIsLost(src: Source)
    requires StoredAs(Value(Some(["null"])), src)
    ensures Scanned(src) != Ok(Some(["null"]))
  {
    var e := "null";
    assert !NeedsQuote(e) && IsNull(e);
    ValueRoundTripIff(Some([e]), src);
    assert [e][0] == e && !Survives(e, NeedsQuote(e));
  }

  // ---------------------------------------------------------------- what the server prints

  /** The white space the server's array output looks for. */
  predicate IsServerSpace(c: char) { 0x09 <= c as int <= 0x0D || c == ' ' }

  /** Section 8.15.6 of the PostgreSQL manual: elements that are empty, contain braces,
      delimiters, quotes, backslashes or white space, or match NULL are quoted on output. */
  predicate ServerQuotes(s: string) {
    s == "" || IsNull(s) || exists i :: 0 <= i < |s| && (s[i] in "{},\"\\" || IsServerSpace(s[i]))
  }

  function ServerLiteral(es: seq<string>): string {
    Literal(es, seq(|es|, i requires 0 <= i < |es| => ServerQuotes(es[i])))
  }

  ghost predicate Ascii(s: string) { forall i :: 0 <= i < |s| ==> s[i] as int < 0x80 }

  lemma UnquotedIsTrimmed(s: string)
    requires Ascii(s) && !ServerQuotes(s)
    ensures TrimSpace(s) == s && !IsNull(s) && Plain(s)
  {
    forall i | 0 <= i < |s| ensures !IsSpace(s[i]) && s[i] != '"' && s[i] != '\\' && s[i] != ',' {
      assert !(s[i] in "{},\"\\" || IsServerSpace(s[i]));
    }
    TrimSolid(s);
  }

  /** Scan reads back every array of ASCII strings as the server prints it. */
  lemma ScanReadsServerOutput(es: seq<string>, src: Source)
    requires (forall i :: 0 <= i < |es| ==> Ascii(es[i])) && HasText(src, ServerLiteral(es))
    ensures Scanned(src) == Ok(Some(es))
  {
    var qs := seq(|es|, i requires 0 <= i < |es| => ServerQuotes(es[i]));
    forall i | 0 <= i < |es| ensures (qs[i] || Plain(es[i])) && Survives(es[i], qs[i]) {
      if !qs[i] {
        UnquotedIsTrimmed(es[i]);
      }
    }
    LiteralRoundTripIff(es, qs, src);
  }

  // ---------------------------------------------------------------- every literal

  /** How an element can be spelled: a character as it is, a character behind a backslash, a quote. */
  datatype Piece = Bare(c: char) | Escape(c: char) | Mark

  function Spelled(ps: seq<Piece>): string
    decreases |ps|
  {
    if ps == [] then ""
    else
      Spelled(ps[..|ps| - 1]) +
      match ps[|ps| - 1] case Bare(c) => [c] case Escape(c) => ['\\', c] case Mark => ['"']
  }

  /** The characters it spells. */
  function Meant(ps: seq<Piece>): string
    decreases |ps|
  {
    if ps == [] then "" else Meant(ps[..|ps| - 1]) + if ps[|ps| - 1].Mark? then "" else [ps[|ps| - 1].c]
  }

  function Marks(ps: seq<Piece>): nat
    decreases |ps|
  {
    if ps == [] then 0 else Marks(ps[..|ps| - 1]) + if ps[|ps| - 1].Mark? then 1 else 0
  }

  predicate InQuotes(ps: seq<Piece>) { Marks(ps) % 2 == 1 }

  /** Quotes and backslashes do not stand for themselves, and commas only between quotes. */
  ghost predicate IsElement(ps: seq<Piece>) {
    forall k :: 0 <= k < |ps| && ps[k].Bare? ==>
      ps[k].c != '"' && ps[k].c != '\\' && (ps[k].c == ',' ==> InQuotes(ps[..k]))
  }

  lemma ElementPrefix(ps: seq<Piece>)
    requires ps != [] && IsElement(ps)
    ensures IsElement(ps[..|ps| - 1])
  {
    var p := ps[..|ps| - 1];
    forall k | 0 <= k < |p| && p[k].Bare?
      ensures p[k].c != '"' && p[k].c != '\\' && (p[k].c == ',' ==> InQuotes(p[..k]))
    {
      assert p[..k] == ps[..k] && p[k] == ps[k];
    }
  }

  lemma {:induction false} FeedSpelled(p: Scanner, ps: seq<Piece>)
    requires !p.inQuote && !p.escaped && IsElement(ps)
    ensures FeedAll(p, Spelled(ps)) ==
      p.(current := p.current + Meant(ps), inQuote := InQuotes(ps), quoted := p.quoted || Marks(ps) > 0)
    decreases |ps|
  {
    if ps == [] {
      assert p.current + "" == p.current;
    } else {
      var front, last := ps[..|ps| - 1], ps[|ps| - 1];
      ElementPrefix(ps);
      FeedSpelled(p, front);
      var m := FeedAll(p, Spelled(front));
      match last
      case Bare(c) =>
        FeedAppend(p, Spelled(front), [c]);
        FeedOne(m, c);
        assert (p.current + Meant(front)) + [c] == p.current + Meant(ps);
      case Escape(c) =>
        FeedAppend(p, Spelled(front), ['\\', c]);
        FeedBackslash(m, c);
        assert (p.current + Meant(front)) + [c] == p.current + Meant(ps);
      case Mark =>
        FeedAppend(p, Spelled(front), ['"']);
        FeedOne(m, '"');
        assert Meant(ps) == Meant(front);
    }
  }

  function SpelledAll(els: seq<seq<Piece>>): seq<string> { seq(|els|, i requires 0 <= i < |els| => Spelled(els[i])) }

  function MeantAll(els: seq<seq<Piece>>): seq<Raw> {
    seq(|els|, i requires 0 <= i < |els| => Raw(Meant(els[i]), Marks(els[i]) > 0))
  }

  /** Elements with their quotes closed, except perhaps the last one's. */
  ghost predicate AreElements(els: seq<seq<Piece>>) {
    && els != [] && (forall i :: 0 <= i < |els| ==> IsElement(els[i]))
    && forall i :: 0 <= i < |els| - 1 ==> !InQuotes(els[i])
  }

  lemma {:induction false} FeedElements(els: seq<seq<Piece>>)
    requires AreElements(els)
    ensures var m := FeedAll(Start, Join(SpelledAll(els), ','));
      Flushed(m) == MeantAll(els) && !m.escaped && m.inQuote == InQuotes(els[|els| - 1])
    decreases |els|
  {
    var n := |els|;
    var last := els[n - 1];
    if n == 1 {
      FeedSpelled(Start, last);
      assert "" + Meant(last) == Meant(last);
    } else {
      var front := els[..n - 1];
      FeedElements(front);
      var init := Join(SpelledAll(front), ',');
      FeedMore(init, FeedAll(Start, init), last);
      ElementsSnoc(els);
    }
  }

  lemma ElementsSnoc(els: seq<seq<Piece>>)
    requires |els| > 1
    ensures var front, last := els[..|els| - 1], els[|els| - 1];
      && Join(SpelledAll(els), ',') == Join(SpelledAll(front), ',') + [','] + Spelled(last)
      && MeantAll(els) == MeantAll(front) + [Raw(Meant(last), Marks(last) > 0)]
  {
    var front, last := els[..|els| - 1], els[|els| - 1];
    assert SpelledAll(els) == SpelledAll(front) + [Spelled(last)];
    JoinSnoc(SpelledAll(front), Spelled(last), ',');
  }

  lemma FeedMore(init: string, m: Scanner, ps: seq<Piece>)
    requires FeedAll(Start, init) == m && !m.inQuote && !m.escaped && IsElement(ps)
    ensures FeedAll(Start, init + [','] + Spelled(ps)) == Scanner(Flushed(m), Meant(ps), InQuotes(ps), false, Marks(ps) > 0)
  {
    FeedAppend(Start, init + [','], Spelled(ps));
    FeedAppend(Start, init, [',']);
    FeedOne(m, ',');
    FeedSpelled(Feed(m, ','), ps);
    assert "" + Meant(ps) == Meant(ps);
  }

  /** `s` spells the elements `els`, with nothing or a lone backslash behind them. */
  ghost predicate Spells(s: string, els: seq<seq<Piece>>) {
    AreElements(els) && (s == Join(SpelledAll(els), ',') || s == Join(SpelledAll(els), ',') + ['\\'])
  }

  /** What the parser makes of any text: the characters each element spells, trimmed unless the
      element has quotes in it; an error exactly if one without is a NULL in any case. */
  lemma ParsedIsMeant(s: string, els: seq<seq<Piece>>)
    requires Spells(s, els)
    ensures Parsed(s) == Values(MeantAll(els))
    ensures Parsed(s).Err? <==> exists i :: 0 <= i < |els| && Marks(els[i]) == 0 && IsNull(TrimSpace(Meant(els[i])))
    ensures Parsed(s).Ok? ==>
      |Parsed(s).value| == |els| && forall i :: 0 <= i < |els| ==>
        Parsed(s).value[i] == if Marks(els[i]) > 0 then Meant(els[i]) else TrimSpace(Meant(els[i]))
  {
    FeedElements(els);
    var text := Join(SpelledAll(els), ',');
    FeedAppend(Start, text, ['\\']);
    FeedOne(FeedAll(Start, text), '\\');
    var rs := MeantAll(els);
    forall i | 0 <= i < |els| ensures IsNullElement(rs[i]) <==> Marks(els[i]) == 0 && IsNull(TrimSpace(Meant(els[i]))) {
    }
  }

  /** And every text spells some elements. */
  lemma {:induction false} EveryTextIsSpelled(s: string) returns (els: seq<seq<Piece>>, dangling: bool)
    ensures AreElements(els)
    ensures s == Join(SpelledAll(els), ',') + if dangling then ['\\'] else []
    decreases |s|
  {
    if s == [] {
      els, dangling := [[]], false;
      assert SpelledAll([[]]) == [""];
    } else {
      var c := s[|s| - 1];
      var before, escaped := EveryTextIsSpelled(s[..|s| - 1]);
      var text := Join(SpelledAll(before), ',');
      assert s == s[..|s| - 1] + [c];
      if escaped {
        els := OnePieceMore(before, Escape(c));
        dangling := false;
        assert text + ['\\', c] == text + ['\\'] + [c];
      } else if c == '\\' {
        els, dangling := before, true;
      } else if c == ',' && !InQuotes(before[|before| - 1]) {
        els, dangling := before + [[]], false;
        assert SpelledAll(els) == SpelledAll(before) + [""];
        JoinSnoc(SpelledAll(before), "", ',');
      } else {
        els := OnePieceMore(before, if c == '"' then Mark else Bare(c));
        dangling := false;
      }
    }
  }

  lemma OnePieceMore(els: seq<seq<Piece>>, p: Piece) returns (more: seq<seq<Piece>>)
    requires AreElements(els)
    requires p.Bare? ==> p.c != '"' && p.c != '\\' && (p.c == ',' ==> InQuotes(els[|els| - 1]))
    ensures AreElements(more)
    ensures Join(SpelledAll(more), ',') == Join(SpelledAll(els), ',') + Spelled([p])
  {
    var n := |els|;
    var last := els[n - 1] + [p];
    more := els[n - 1 := last];
    assert last[..|last| - 1] == els[n - 1];
    assert IsElement(last) by {
      forall k | 0 <= k < |last| && last[k].Bare?
        ensures last[k].c != '"' && last[k].c != '\\' && (last[k].c == ',' ==> InQuotes(last[..k]))
      {
        if k < |last| - 1 {
          assert last[..k] == els[n - 1][..k];
        }
      }
    }
    assert [p][..0] == [];
    assert Spelled(last) == Spelled(els[n - 1]) + Spelled([p]);
    JoinLast(SpelledAll(els), Spelled([p]));
    assert SpelledAll(more) == ExtendLast(SpelledAll(els), Spelled([p]));
  }

  lemma JoinLast(parts: seq<string>, t: string)
    requires parts != []
    ensures Join(ExtendLast(parts, t), ',') == Join(parts, ',') + t
  {
    var n := |parts|;
    var front := parts[..n - 1];
    if n > 1 {
      JoinSnoc(front, parts[n - 1], ',');
      JoinSnoc(front, parts[n - 1] + t, ',');
      assert parts == front + [parts[n - 1]];
      assert ExtendLast(parts, t) == front + [parts[n - 1] + t];
      assert Join(front, ',') + [','] + (parts[n - 1] + t) == Join(front, ',') + [','] + parts[n - 1] + t;
    }
  }

  // ---------------------------------------------------------------- which sources scan

  lemma NullInAnyCase(s: string)
    ensures IsNull(s) <==> |s| == 4 && s[0] in "nN" && s[1] in "uU" && s[2] in "lL" && s[3] in "lL"
  {
  }

  /** Nil comes from SQL NULL only, a source without text is refused, and text scans only if it is
      enclosed in braces; what is between them is then parsed, and a string and bytes with the same
      text scan alike. */
  lemma ScanAcceptsExactly(src: Source, s: string)
    ensures Scanned(src) == Ok(None) <==> src == SqlNull
    ensures Scanned(src) == Err(CannotScan) <==> src == SqlOther
    ensures HasText(src, s) ==> var t := TrimSpace(s);
      var braced := |t| >= 2 && t[0] == '{' && t[|t| - 1] == '}';
      && (Scanned(src) == Err(InvalidLiteral) <==> !braced)
      && (t == "{}" ==> Scanned(src) == Ok(Some([])))
      && (braced && t != "{}" ==>
           match Parsed(t[1..|t| - 1]) case Ok(es) => Scanned(src) == Ok(Some(es)) case Err(e) => Scanned(src) == Err(e))
  {
  }

  // ---------------------------------------------------------------- the code

  lemma {:induction false} ResultGrows(p: Scanner, s: string)
    ensures p.result <= FeedAll(p, s).result
    decreases |s|
  {
    if s != [] {
      ResultGrows(p, s[..|s| - 1]);
    }
  }

  /** Once an unquoted NULL has been flushed the whole parse is an error. */
  lemma NullIsFinal(s: string, i: nat)
    requires i < |s| && !FeedAll(Start, s[..i]).escaped && s[i] == ',' && !FeedAll(Start, s[..i]).inQuote
    requires var p := FeedAll(Start, s[..i]); IsNullElement(Raw(p.current, p.quoted))
    ensures Parsed(s) == Err(NullElement)
  {
    var p := FeedAll(Start, s[..i]);
    var m := FeedAll(Start, s[..i + 1]);
    assert s[..i + 1][..i] == s[..i];
    assert m == Feed(p, ',') && m.result[|p.result|] == Raw(p.current, p.quoted);
    ResultGrows(m, s[i + 1..]);
    FeedAppend(Start, s[..i + 1], s[i + 1..]);
    assert s[..i + 1] + s[i + 1..] == s;
    assert Flushed(FeedAll(Start, s))[|p.result|] == Raw(p.current, p.quoted);
  }

  lemma ValuesSnoc(rs: seq<Raw>, r: Raw)
    requires Values(rs).Ok? && !IsNullElement(r)
    ensures Values(rs + [r]) == Ok(Values(rs).value + [Kept(r)])
  {
    var all := rs + [r];
    forall i | 0 <= i < |all| ensures !IsNullElement(all[i]) {
      if i < |rs| {
        assert all[i] == rs[i];
      }
    }
    assert Values(all).value == Values(rs).value + [Kept(r)];
  }

  method ParseArrayElements(s: string) returns (r: Result<seq<string>, Error>)
    ensures r == Parsed(s)
  {
    var result: seq<string> := [];
    var current := "";
    var inQuote, escaped, quoted := false, false, false;
    ghost var p := Start;
    assert Values(p.result).value == [];
    var i := 0;
    while i < |s|
      invariant 0 <= i <= |s|
      invariant p == FeedAll(Start, s[..i])
      invariant p.current == current && p.inQuote == inQuote && p.escaped == escaped && p.quoted == quoted
      invariant Values(p.result) == Ok(result)
    {
      var c := s[i];
      assert s[..i + 1][..i] == s[..i];
      if escaped {
        current, escaped := current + [c], false;
      } else if c == '\\' {
        escaped := true;
      } else if c == '"' {
        inQuote, quoted := !inQuote, true;
      } else if c == ',' && !inQuote {
        var val := if quoted then current else TrimSpace(current);
        if !quoted && IsNull(val) {
          NullIsFinal(s, i);
          return Err(NullElement);
        }
        ValuesSnoc(p.result, Raw(current, quoted));
        result := result + [val];
        current, quoted := "", false;
      } else {
        current := current + [c];
      }
      p := Feed(p, c);
      i := i + 1;
    }
    assert s[..i] == s;
    var val := if quoted then current else TrimSpace(current);
    if !quoted && IsNull(val) {
      assert Flushed(p)[|p.result|] == Raw(current, quoted);
      return Err(NullElement);
    }
    ValuesSnoc(p.result, Raw(current, quoted));
    r := Ok(result + [val]);
  }

  method Scan(src: Source) returns (r: Result<TextArray, Error>)
    ensures r == Scanned(src)
  {
    if src.SqlNull? {
      return Ok(None);
    }
    if src.SqlOther? {
      return Err(CannotScan);
    }
    var s := TrimSpace(src.s);
    if s == "{}" {
      return Ok(Some([]));
    }
    if |s| < 2 || s[0] != '{' || s[|s| - 1] != '}' {
      return Err(InvalidLiteral);
    }
    var elems := ParseArrayElements(s[1..|s| - 1]);
    match elems
    case Ok(es) => r := Ok(Some(es));
    case Err(e) => r := Err(e);
  }

  lemma {:induction false} EscapedIsLonger(s: string)
    ensures |Escaped(s)| >= |s|
    decreases |s|
  {
    if s != [] {
      EscapedIsLonger(s[..|s| - 1]);
    }
  }

  /** What is printed is the element itself exactly if it is not empty and has none of the
      characters that quoting is for. */
  lemma LeftAloneIff(s: string)
    ensures Printed(s, NeedsQuote(s)) == s <==> s != "" && forall i :: 0 <= i < |s| ==> s[i] !in "{},\"\\ \t\n"
  {
    EscapedIsLonger(s);
    if NeedsQuote(s) {
      assert |Printed(s, true)| > |s|;
    }
  }

  method QuoteArrayElement(s: string) returns (r: string)
    ensures r == Printed(s, NeedsQuote(s))
  {
    if s == "" || exists i :: 0 <= i < |s| && IsSpecial(s[i]) {
      r := ['"'];
      for i := 0 to |s|
        invariant r == ['"'] + Escaped(s[..i])
      {
        assert s[..i + 1][..i] == s[..i];
        if s[i] == '"' || s[i] == '\\' {
          r := r + ['\\'];
        }
        r := r + [s[i]];
      }
      assert s[..|s|] == s;
      r := r + ['"'];
    } else {
      r := s;
    }
  }

  method WriteValue(a: TextArray) returns (r: Option<string>)
    ensures r == Value(a)
  {
    if a.None? {
      return None;
    }
    var es := a.value;
    var elems: seq<string> := [];
    for i := 0 to |es|
      invariant elems == PrintedAll(es, ValueQuotes(es))[..i]
    {
      var q := QuoteArrayElement(es[i]);
      elems := elems + [q];
    }
    assert elems == PrintedAll(es, ValueQuotes(es));
    r := Some("{" + Join(elems, ',') + "}");
  }
}
