/** The Wavefront OBJ converter (utils/parse-obj.py): it reads the `v`
    (vertex) and `f` (face) records of an OBJ file and prints them as C++
    initialisers for a Mesh. Lines are strings as Python reads them from a
    file, newline included. Python's float() and int() raise ValueError on a
    malformed number; here that is `None`, and the conversion stops at the
    first such line as the script does. */
module ObjConverter {
  import opened Wrappers

  /** str.split(sep) with a one-character separator: every occurrence
      separates, so neighbouring separators give an empty piece. */
  function Split(s: string, sep: char): (r: seq<string>)
    ensures |r| >= 1
    ensures forall i :: 0 <= i < |r| ==> sep !in r[i]
  {
    if |s| == 0 then [""]
    else if s[0] == sep then [""] + Split(s[1..], sep)
    else
      var rest := Split(s[1..], sep);
      [[s[0]] + rest[0]] + rest[1..]
  }

  /** sep.join(items). */
  function Join(sep: string, items: seq<string>): string
  {
    if |items| == 0 then ""
    else if |items| == 1 then items[0]
    else items[0] + sep + Join(sep, items[1..])
  }

  /** Joining the pieces of a split with the separator gives the string back. */
  lemma {:induction false} JoinSplit(s: string, sep: char)
    ensures Join([sep], Split(s, sep)) == s
  {
    if |s| > 0 {
      var rest := Split(s[1..], sep);
      JoinSplit(s[1..], sep);
      if s[0] == sep {
        assert Split(s, sep) == [""] + rest;
        assert ([""] + rest)[1..] == rest;
        assert s == [sep] + s[1..];
      } else {
        assert Split(s, sep) == [[s[0]] + rest[0]] + rest[1..];
        if |rest| == 1 {
          assert s == [s[0]] + s[1..];
        } else {
          assert ([[s[0]] + rest[0]] + rest[1..])[1..] == rest[1..];
          assert Join([sep], rest) == rest[0] + [sep] + Join([sep], rest[1..]);
          assert s == [s[0]] + s[1..];
        }
      }
    }
  }

  /** Text free of the separator, then the separator, then more: the split
      cuts off exactly that text. */
  lemma {:induction false} SplitAfter(a: string, sep: char, rest: string)
    requires sep !in a
    ensures Split(a + [sep] + rest, sep) == [a] + Split(rest, sep)
  {
    if |a| > 0 {
      SplitAfter(a[1..], sep, rest);
      assert (a + [sep] + rest)[1..] == a[1..] + [sep] + rest;
      assert [a[0]] + a[1..] == a;
    } else {
      assert a + [sep] + rest == [sep] + rest;
    }
  }

  /** Text free of the separator splits into itself. */
  lemma {:induction false} SplitWhole(a: string, sep: char)
    requires sep !in a
    ensures Split(a, sep) == [a]
  {
    if |a| > 0 {
      SplitWhole(a[1..], sep);
      assert [a[0]] + a[1..] == a;
    }
  }

  /** Splitting a join gives the items back when no item holds the separator. */
  lemma {:induction false} SplitJoin(items: seq<string>, sep: char)
    requires |items| >= 1 && forall i :: 0 <= i < |items| ==> sep !in items[i]
    ensures Split(Join([sep], items), sep) == items
  {
    if |items| == 1 {
      SplitWhole(items[0], sep);
    } else {
      SplitJoin(items[1..], sep);
      SplitAfter(items[0], sep, Join([sep], items[1..]));
      assert [items[0]] + items[1..] == items;
    }
  }

  /** The characters Python's int() and float() ignore around a number. */
  predicate IsSpace(c: char)
  {
    c == ' ' || c == '\t' || c == '\n' || c == '\r' || c == '\U{0B}' || c == '\U{0C}'
    || c == '\U{1C}' || c == '\U{1D}' || c == '\U{1E}' || c == '\U{1F}'
  }

  function TrimStart(s: string): (r: string)
    ensures |r| <= |s|
  {
    if |s| > 0 && IsSpace(s[0]) then TrimStart(s[1..]) else s
  }

  function TrimEnd(s: string): (r: string)
    ensures |r| <= |s|
  {
    if |s| > 0 && IsSpace(s[|s| - 1]) then TrimEnd(s[..|s| - 1]) else s
  }

  /** The text with surrounding white space removed. */
  function Strip(s: string): string
  {
    TrimEnd(TrimStart(s))
  }

  /** Stripping removes white space from both ends and nothing else: the
      result is a slice of the input with no space at either end, and only
      spaces lie outside it. */
  lemma {:induction false} StripSlice(s: string)
    ensures exists i, j ::
      (0 <= i <= j <= |s| && Strip(s) == s[i..j]
       && (forall k :: 0 <= k < i ==> IsSpace(s[k])) && (forall k :: j <= k < |s| ==> IsSpace(s[k])))
    ensures |Strip(s)| > 0 ==> !IsSpace(Strip(s)[0]) && !IsSpace(Strip(s)[|Strip(s)| - 1])
  {
    var i := TrimStartAt(s);
    var j := TrimEndAt(s[i..]);
    assert s[i..][..j] == s[i..i + j];
    forall k | i + j <= k < |s| ensures IsSpace(s[k]) {
      assert s[k] == s[i..][k - i];
    }
  }

  lemma {:induction false} TrimStartIs(s: string)
    ensures |TrimStart(s)| > 0 ==> !IsSpace(TrimStart(s)[0])
  {
    if |s| > 0 && IsSpace(s[0]) {
      TrimStartIs(s[1..]);
    }
  }

  /** Where the kept text of TrimStart begins. */
  lemma {:induction false} TrimStartAt(s: string) returns (i: nat)
    ensures i <= |s| && TrimStart(s) == s[i..] && forall k :: 0 <= k < i ==> IsSpace(s[k])
    ensures |TrimStart(s)| > 0 ==> !IsSpace(TrimStart(s)[0])
  {
    TrimStartIs(s);
    if |s| > 0 && IsSpace(s[0]) {
      var i' := TrimStartAt(s[1..]);
      i := i' + 1;
      assert s[1..][i'..] == s[i..];
      forall k | 0 < k < i ensures IsSpace(s[k]) {
        assert s[k] == s[1..][k - 1];
      }
    } else {
      i := 0;
    }
  }

  /** Where the kept text of TrimEnd ends. */
  lemma {:induction false} TrimEndAt(s: string) returns (j: nat)
    ensures j <= |s| && TrimEnd(s) == s[..j] && forall k :: j <= k < |s| ==> IsSpace(s[k])
    ensures |TrimEnd(s)| > 0 ==> !IsSpace(TrimEnd(s)[|TrimEnd(s)| - 1])
  {
    if |s| > 0 && IsSpace(s[|s| - 1]) {
      j := TrimEndAt(s[..|s| - 1]);
      assert s[..|s| - 1][..j] == s[..j];
      forall k | j <= k < |s| ensures IsSpace(s[k]) {
        if k < |s| - 1 {
          assert s[k] == s[..|s| - 1][k];
        }
      }
    } else {
      j := |s|;
      assert s[..j] == s;
    }
  }

  /** Text with no space at either end is its own strip. */
  lemma StripUnspaced(s: string)
    requires |s| > 0 && !IsSpace(s[0]) && !IsSpace(s[|s| - 1])
    ensures Strip(s) == s
  {
  }

  predicate IsDigit(c: char) { '0' <= c <= '9' }

  predicate AllDigits(s: string) { forall i :: 0 <= i < |s| ==> IsDigit(s[i]) }

  function DigitValue(c: char): nat
    requires IsDigit(c)
  {
    c as int - '0' as int
  }

  function DigitChar(d: nat): (c: char)
    requires d < 10
    ensures IsDigit(c) && DigitValue(c) == d
  {
    ('0' as int + d) as char
  }

  /** The value of a run of decimal digits, most significant first. */
  function DigitsValue(s: string): nat
    requires AllDigits(s)
  {
    if |s| == 0 then 0 else DigitsValue(s[..|s| - 1]) * 10 + DigitValue(s[|s| - 1])
  }

  /** str() of a natural number: its decimal digits, no leading zero. */
  function NatToStr(n: nat): (r: string)
    ensures |r| >= 1 && AllDigits(r)
    ensures |r| > 1 ==> r[0] != '0'
  {
    if n < 10 then [DigitChar(n)] else NatToStr(n / 10) + [DigitChar(n % 10)]
  }

  /** The digits str() writes read back as the number. */
  lemma {:induction false} NatToStrValue(n: nat)
    ensures DigitsValue(NatToStr(n)) == n
  {
    if n >= 10 {
      NatToStrValue(n / 10);
      var s := NatToStr(n / 10) + [DigitChar(n % 10)];
      assert s[..|s| - 1] == NatToStr(n / 10);
    }
  }

  /** str() of an int: a minus sign before the digits of a negative one. */
  function IntToStr(n: int): (r: string)
    ensures |r| >= 1
  {
    if n < 0 then "-" + NatToStr(-n) else NatToStr(n)
  }

  /** An optional sign, then the rest. */
  function Signed(s: string): (bool, string)
  {
    if |s| > 0 && (s[0] == '-' || s[0] == '+') then (s[0] == '-', s[1..]) else (false, s)
  }

  /** int() of a string: white space around an optional sign and one or
      more decimal digits. */
  function ParseInt(t: string): Option<int>
  {
    var (negative, digits) := Signed(Strip(t));
    if |digits| == 0 || !AllDigits(digits) then None
    else if negative then Some(-(DigitsValue(digits) as int))
    else Some(DigitsValue(digits) as int)
  }

  /** int(str(n)) == n. */
  lemma IntRoundTrip(n: int)
    ensures ParseInt(IntToStr(n)) == Some(n)
  {
    var s := IntToStr(n);
    var d := NatToStr(if n < 0 then -n else n);
    NatToStrValue(if n < 0 then -n else n);
    assert !IsSpace(s[0]) && !IsSpace(s[|s| - 1]) by {
      assert IsDigit(d[|d| - 1]);
      if n < 0 { assert s[|s| - 1] == d[|d| - 1]; }
    }
    StripUnspaced(s);
    if n < 0 {
      assert Signed(s) == (true, d);
    } else {
      assert IsDigit(s[0]);
    }
  }

  /** 10^n. */
  function Pow10(n: nat): (r: nat)
    ensures r >= 1
  {
    if n == 0 then 1 else 10 * Pow10(n - 1)
  }

  /** The index of the first character satisfying the test, or |s|. */
  function FirstOf(s: string, c1: char, c2: char): (i: nat)
    ensures i <= |s| && (i < |s| ==> s[i] == c1 || s[i] == c2)
    ensures forall k :: 0 <= k < i ==> s[k] != c1 && s[k] != c2
  {
    if |s| == 0 then 0
    else if s[0] == c1 || s[0] == c2 then 0
    else 1 + FirstOf(s[1..], c1, c2)
  }

  /** Digits with an optional decimal point, at least one digit in all. */
  function Mantissa(s: string): Option<real>
  {
    var d := FirstOf(s, '.', '.');
    Decimal(s[..d], if d < |s| then s[d + 1..] else "")
  }

  /** The value of whole-part and fraction-part digits, at least one digit
      in all. */
  function Decimal(whole: string, fraction: string): Option<real>
  {
    if AllDigits(whole) && AllDigits(fraction) && |whole| + |fraction| > 0 then
      Some(DigitsValue(whole) as real + Ratio(DigitsValue(fraction), Pow10(|fraction|)))
    else None
  }

  /** n / p as a real. */
  function Ratio(n: nat, p: nat): real
    requires p >= 1
  {
    n as real / p as real
  }

  /** A signed decimal exponent. */
  function Exponent(s: string): Option<int>
  {
    var (negative, digits) := Signed(s);
    if |digits| == 0 || !AllDigits(digits) then None
    else Some(if negative then -(DigitsValue(digits) as int) else DigitsValue(digits) as int)
  }

  /** m * 10^e. */
  function Scale10(m: real, e: int): real
  {
    if e >= 0 then m * Pow10(e) as real else m / Pow10(-e) as real
  }

  /** float() of a decimal string: white space around an optional sign, a
      mantissa, and an optional exponent after `e` or `E`; the value is
      exact (rounding to a double is not modelled). */
  function ParseFloat(t: string): Option<real>
  {
    var (negative, body) := Signed(Strip(t));
    var k := FirstOf(body, 'e', 'E');
    var m := Mantissa(body[..k]);
    var e := if k == |body| then Some(0) else Exponent(body[k + 1..]);
    if m.None? || e.None? then None
    else Some(if negative then -Scale10(m.value, e.value) else Scale10(m.value, e.value))
  }

  /** A run of digits is a mantissa with no exponent and no fraction. */
  lemma DigitsAsFloat(d: string)
    requires |d| >= 1 && AllDigits(d)
    ensures FirstOf(d, 'e', 'E') == |d|
    ensures Mantissa(d) == Some(DigitsValue(d) as real)
  {
    FirstOfAbsent(d, 'e', 'E');
    FirstOfAbsent(d, '.', '.');
    WholeMantissa(d);
  }

  /** A mantissa without a decimal point is its digits' value. */
  lemma WholeMantissa(d: string)
    requires |d| >= 1 && AllDigits(d) && FirstOf(d, '.', '.') == |d|
    ensures Mantissa(d) == Some(DigitsValue(d) as real)
  {
    assert d[..|d|] == d;
    DecimalOfWhole(d, "");
  }

  lemma DecimalOfWhole(w: string, f: string)
    requires |f| == 0 && |w| >= 1 && AllDigits(w)
    ensures Decimal(w, f) == Some(DigitsValue(w) as real)
  {
  }

  /** Digits hold no exponent mark and no decimal point. */
  lemma {:induction false} FirstOfAbsent(d: string, c1: char, c2: char)
    requires AllDigits(d) && !IsDigit(c1) && !IsDigit(c2)
    ensures FirstOf(d, c1, c2) == |d|
  {
    if |d| > 0 {
      assert IsDigit(d[0]);
      assert AllDigits(d[1..]) by {
        forall k | 0 <= k < |d[1..]| ensures IsDigit(d[1..][k]) { assert d[1..][k] == d[k + 1]; }
      }
      FirstOfAbsent(d[1..], c1, c2);
    }
  }

  /** A whole number in int's notation reads as the same number in float's. */
  lemma FloatOfInt(n: int)
    ensures ParseFloat(IntToStr(n)) == Some(n as real)
  {
    var s := IntToStr(n);
    var a := if n < 0 then -n else n;
    var d := NatToStr(a);
    NatToStrValue(a);
    assert !IsSpace(s[0]) && !IsSpace(s[|s| - 1]) by {
      assert IsDigit(d[|d| - 1]);
      if n < 0 { assert s[|s| - 1] == d[|d| - 1]; }
    }
    StripUnspaced(s);
    assert Signed(s) == (n < 0, d) by {
      if n >= 0 { assert IsDigit(s[0]); }
    }
    SignedDigitsAsFloat(s, n < 0, d);
  }

  /** A signed run of digits, with nothing around it, is a float of that
      value. */
  lemma SignedDigitsAsFloat(s: string, negative: bool, d: string)
    requires Strip(s) == s && Signed(s) == (negative, d) && |d| >= 1 && AllDigits(d)
    ensures ParseFloat(s) == Some(if negative then -(DigitsValue(d) as real) else DigitsValue(d) as real)
  {
    DigitsAsFloat(d);
    assert d[..|d|] == d;
    Scale10Zero(DigitsValue(d) as real);
  }

  lemma Scale10Zero(m: real)
    ensures Scale10(m, 0) == m
  {
    assert Pow10(0) == 1;
  }

  /** All present: the values, in order; any missing: None. */
  function Collect<T>(xs: seq<Option<T>>): (r: Option<seq<T>>)
  {
    if |xs| == 0 then Some([])
    else match (xs[0], Collect(xs[1..]))
      case (Some(x), Some(rest)) => Some([x] + rest)
      case _ => None
  }

  /** Collect succeeds exactly when every entry is present, and then lists
      the entries' values in order. */
  lemma {:induction false} CollectExact<T>(xs: seq<Option<T>>)
    ensures Collect(xs).Some? <==> forall i :: 0 <= i < |xs| ==> xs[i].Some?
    ensures Collect(xs).Some? ==>
      |Collect(xs).value| == |xs| && forall i :: 0 <= i < |xs| ==> Collect(xs).value[i] == xs[i].value
  {
    if |xs| > 0 {
      CollectExact(xs[1..]);
      if Collect(xs).None? && xs[0].Some? {
        var i :| 0 <= i < |xs[1..]| && xs[1..][i].None?;
        assert xs[i + 1].None?;
      }
      if Collect(xs).Some? {
        forall i | 0 < i < |xs| ensures Collect(xs).value[i] == xs[i].value {
          assert xs[i] == xs[1..][i - 1];
        }
      }
    }
  }

  /** The whitespace-separated fields after the record tag. */
  function Fields(line: string): seq<string>
  {
    Split(line, ' ')[1..]
  }

  /** parse_vertex: every field after the tag as a float. */
  function ParseVertex(line: string): Option<seq<real>>
  {
    var fs := Fields(line);
    Collect(seq(|fs|, i requires 0 <= i < |fs| => ParseFloat(fs[i])))
  }

  /** parse_vertex keeps one coordinate per field, each that field's
      float, and fails exactly when some field is not a number. */
  lemma ParseVertexExact(line: string)
    ensures var fs := Fields(line);
      && (ParseVertex(line).Some? <==> forall i :: 0 <= i < |fs| ==> ParseFloat(fs[i]).Some?)
      && (ParseVertex(line).Some? ==>
            (|ParseVertex(line).value| == |fs|
             && forall i :: 0 <= i < |fs| ==> ParseVertex(line).value[i] == ParseFloat(fs[i]).value))
  {
    var fs := Fields(line);
    var xs := seq(|fs|, i requires 0 <= i < |fs| => ParseFloat(fs[i]));
    CollectExact(xs);
    forall i | 0 <= i < |fs| ensures xs[i] == ParseFloat(fs[i]) {
    }
    assert ParseVertex(line) == Collect(xs);
  }

  /** One index of a face record: the text before the first '/' as an
      int, made 0-based. */
  function FaceIndex(field: string): Option<int>
  {
    match ParseInt(Split(field, '/')[0])
    case None => None
    case Some(n) => Some(n - 1)
  }

  /** parse_face: every field after the tag as a 0-based vertex index. */
  function ParseFace(line: string): Option<seq<int>>
  {
    var fs := Fields(line);
    Collect(seq(|fs|, i requires 0 <= i < |fs| => FaceIndex(fs[i])))
  }

  /** parse_face keeps one index per field, each the field's leading
      number less one, and fails exactly when some field has none. */
  lemma ParseFaceExact(line: string)
    ensures var fs := Fields(line);
      && (ParseFace(line).Some? <==> forall i :: 0 <= i < |fs| ==> ParseInt(Split(fs[i], '/')[0]).Some?)
      && (ParseFace(line).Some? ==>
            (|ParseFace(line).value| == |fs|
             && forall i :: 0 <= i < |fs| ==> ParseFace(line).value[i] == ParseInt(Split(fs[i], '/')[0]).value - 1))
  {
    var fs := Fields(line);
    var xs := seq(|fs|, i requires 0 <= i < |fs| => FaceIndex(fs[i]));
    CollectExact(xs);
    forall i | 0 <= i < |fs|
      ensures xs[i].Some? <==> ParseInt(Split(fs[i], '/')[0]).Some?
      ensures xs[i].Some? ==> xs[i].value == ParseInt(Split(fs[i], '/')[0]).value - 1
    {
      assert xs[i] == FaceIndex(fs[i]);
    }
  }

  /** A face written as `f i1 ... in` with 1-based decimal indices parses
      back to the 0-based indices. */
  lemma ParseFaceOfIndices(indices: seq<nat>)
    requires |indices| >= 1
    ensures ParseFace("f " + Join(" ", IndexFields(indices))) == Some(seq(|indices|, i requires 0 <= i < |indices| => indices[i] as int))
  {
    var fs := IndexFields(indices);
    var line := "f " + Join(" ", fs);
    assert line == "f" + [' '] + Join([' '], fs);
    forall i | 0 <= i < |fs| ensures ' ' !in fs[i] {
      assert AllDigits(fs[i]);
    }
    SplitJoin(fs, ' ');
    SplitAfter("f", ' ', Join([' '], fs));
    assert Fields(line) == fs;
    var xs := seq(|fs|, i requires 0 <= i < |fs| => FaceIndex(fs[i]));
    forall i | 0 <= i < |fs| ensures xs[i] == Some(indices[i] as int)
    {
      assert AllDigits(fs[i]);
      SplitWhole(fs[i], '/');
      IntRoundTrip(indices[i] + 1);
    }
    CollectExact(xs);
    assert ParseFace(line) == Collect(xs);
    assert Collect(xs).value == seq(|indices|, i requires 0 <= i < |indices| => indices[i] as int);
  }

  /** Fields of the form `index/texture/normal`, such as "1/2/3 4/5/6",
      give only their vertex index before the first '/', made 0-based. */
  lemma ParseFaceOfReferences(indices: seq<nat>, references: seq<string>)
    requires |indices| >= 1 && |references| == |indices|
    requires forall i :: 0 <= i < |references| ==> ' ' !in references[i]
    ensures ParseFace("f " + Join(" ", ReferenceFields(indices, references)))
      == Some(seq(|indices|, i requires 0 <= i < |indices| => indices[i] as int))
  {
    var fs := ReferenceFields(indices, references);
    var line := "f " + Join(" ", fs);
    assert line == "f" + [' '] + Join([' '], fs);
    forall i | 0 <= i < |fs| ensures ' ' !in fs[i] {
      var d := NatToStr(indices[i] + 1);
      assert ' ' !in d by { assert AllDigits(d); }
      assert fs[i] == d + ['/'] + references[i];
    }
    SplitJoin(fs, ' ');
    SplitAfter("f", ' ', Join([' '], fs));
    assert Fields(line) == fs;
    var xs := seq(|fs|, i requires 0 <= i < |fs| => FaceIndex(fs[i]));
    forall i | 0 <= i < |fs| ensures xs[i] == Some(indices[i] as int)
    {
      var d := NatToStr(indices[i] + 1);
      assert '/' !in d by { assert AllDigits(d); }
      SplitAfter(d, '/', references[i]);
      IntRoundTrip(indices[i] + 1);
    }
    CollectExact(xs);
    assert ParseFace(line) == Collect(xs);
    assert Collect(xs).value == seq(|indices|, i requires 0 <= i < |indices| => indices[i] as int);
  }

  /** Face fields `n/reference` with n the 1-based index. */
  function ReferenceFields(indices: seq<nat>, references: seq<string>): (r: seq<string>)
    requires |references| == |indices|
    ensures |r| == |indices|
  {
    seq(|indices|, i requires 0 <= i < |indices| => NatToStr(indices[i] + 1) + "/" + references[i])
  }

  /** Neighbouring spaces leave an empty field, which int() rejects: the
      whole face fails. */
  lemma DoubleSpaceFails(a: nat, b: nat)
    ensures ParseFace("f " + NatToStr(a) + "  " + NatToStr(b)).None?
  {
    var line := "f " + NatToStr(a) + "  " + NatToStr(b);
    var x := NatToStr(a);
    assert ' ' !in x by { assert AllDigits(x); }
    assert line == "f" + [' '] + (x + [' '] + ([' '] + NatToStr(b)));
    SplitAfter("f", ' ', x + [' '] + ([' '] + NatToStr(b)));
    SplitAfter(x, ' ', [' '] + NatToStr(b));
    SplitAfter("", ' ', NatToStr(b));
    assert [' '] + NatToStr(b) == "" + [' '] + NatToStr(b);
    var fs := Fields(line);
    assert fs[1] == "";
    assert Split("", '/') == [""];
    assert FaceIndex(fs[1]).None?;
    var xs := seq(|fs|, i requires 0 <= i < |fs| => FaceIndex(fs[i]));
    assert xs[1].None?;
    CollectExact(xs);
  }

  /** The 1-based decimal fields of a face. */
  function IndexFields(indices: seq<nat>): (r: seq<string>)
    ensures |r| == |indices| && forall i :: 0 <= i < |r| ==> AllDigits(r[i])
  {
    seq(|indices|, i requires 0 <= i < |indices| => NatToStr(indices[i] + 1))
  }

  predicate StartsWith(line: string, prefix: string)
  {
    |prefix| <= |line| && line[..|prefix|] == prefix
  }

  /** The records converted from the lines, in file order: `v ` lines
      become vertices, `f ` lines faces, every other line is skipped; the
      first malformed record stops the conversion. */
  function Converted(lines: seq<string>): Option<(seq<seq<real>>, seq<seq<int>>)>
  {
    if |lines| == 0 then Some(([], []))
    else
      var line := lines[|lines| - 1];
      match Converted(lines[..|lines| - 1])
      case None => None
      case Some((vs, fs)) =>
        if StartsWith(line, "v ") then
          match ParseVertex(line)
          case None => None
          case Some(v) => Some((vs + [v], fs))
        else if StartsWith(line, "f ") then
          match ParseFace(line)
          case None => None
          case Some(f) => Some((vs, fs + [f]))
        else Some((vs, fs))
  }

  /** How many lines start with the prefix. */
  function CountStarting(lines: seq<string>, prefix: string): nat
  {
    if |lines| == 0 then 0
    else CountStarting(lines[..|lines| - 1], prefix) + if StartsWith(lines[|lines| - 1], prefix) then 1 else 0
  }

  /** A successful conversion has one vertex per `v ` line and one face per
      `f ` line. */
  lemma {:induction false} ConvertedCounts(lines: seq<string>)
    requires Converted(lines).Some?
    ensures |Converted(lines).value.0| == CountStarting(lines, "v ")
    ensures |Converted(lines).value.1| == CountStarting(lines, "f ")
  {
    if |lines| > 0 {
      ConvertedCounts(lines[..|lines| - 1]);
      var line := lines[|lines| - 1];
      if StartsWith(line, "v ") {
        assert !StartsWith(line, "f ") by { assert line[1] == ' '; }
      }
    }
  }

  /** A comment, normal or texture line is skipped and leaves the records
      as they were. */
  lemma SkipsOthers(lines: seq<string>, line: string)
    requires !StartsWith(line, "v ") && !StartsWith(line, "f ")
    ensures Converted(lines + [line]) == Converted(lines)
  {
    assert (lines + [line])[..|lines|] == lines;
  }

  /** The loop of the script: append each record to its list in file
      order; a malformed record raises, which ends the run. */
  method Convert(lines: seq<string>) returns (r: Option<(seq<seq<real>>, seq<seq<int>>)>)
    ensures r == Converted(lines)
  {
    var vertices: seq<seq<real>> := [];
    var faces: seq<seq<int>> := [];
    var i := 0;
    while i < |lines|
      invariant 0 <= i <= |lines|
      invariant Converted(lines[..i]) == Some((vertices, faces))
    {
      var line := lines[i];
      assert lines[..i + 1][..i] == lines[..i];
      if StartsWith(line, "v ") {
        var v := ParseVertex(line);
        if v.None? {
          ConvertedStops(lines, i + 1);
          return None;
        }
        vertices := vertices + [v.value];
      } else if StartsWith(line, "f ") {
        var f := ParseFace(line);
        if f.None? {
          ConvertedStops(lines, i + 1);
          return None;
        }
        faces := faces + [f.value];
      }
      i := i + 1;
    }
    assert lines[..i] == lines;
    r := Some((vertices, faces));
  }

  /** Once a prefix fails, the whole conversion fails. */
  lemma {:induction false} ConvertedStops(lines: seq<string>, i: nat)
    requires i <= |lines| && Converted(lines[..i]).None?
    ensures Converted(lines).None?
    decreases |lines| - i
  {
    if i < |lines| {
      assert lines[..i + 1][..i] == lines[..i];
      ConvertedStops(lines, i + 1);
    } else {
      assert lines[..i] == lines;
    }
  }

  /** '{' + ', '.join(items) + '}'. */
  function Braced(items: seq<string>): string
  {
    "{" + Join(", ", items) + "}"
  }

  /** face_to_str. */
  function FaceToStr(face: seq<int>): string
  {
    Braced(seq(|face|, i requires 0 <= i < |face| => IntToStr(face[i])))
  }

  /** vertex_to_str, with Python's str() of a float as the parameter show. */
  function VertexToStr(vertex: seq<real>, show: real -> string): string
  {
    Braced(seq(|vertex|, i requires 0 <= i < |vertex| => show(vertex[i])))
  }

  /** face_to_str([0, 1, 2]) is "{0, 1, 2}". */
  lemma FaceToStrExample()
    ensures FaceToStr([0, 1, 2]) == "{0, 1, 2}"
  {
    assert IntToStr(0) == "0" && IntToStr(1) == "1" && IntToStr(2) == "2";
    var items := seq(3, i requires 0 <= i < 3 => IntToStr([0, 1, 2][i]));
    assert items == ["0", "1", "2"];
    assert Join(", ", items[2..]) == "2";
    assert Join(", ", items[1..]) == "1, 2";
    assert Join(", ", items) == "0, 1, 2";
  }

  /** The last line of the output: the Mesh constructed from the two arrays
      with the numbers of vertices and faces read. */
  function MeshCall(variable: string, vertexCount: nat, faceCount: nat): string
  {
    "voltage::Mesh* " + variable + " = new voltage::Mesh(" + variable + "Vertices, " + NatToStr(vertexCount)
      + ", " + variable + "Faces, " + NatToStr(faceCount) + ");"
  }

  /** The printed text: the vertex array, the face array and the Mesh, the
      surrounding newlines stripped. */
  function Output(variable: string, vertices: seq<seq<real>>, faces: seq<seq<int>>, show: real -> string): string
  {
    "Vector3 " + variable + "Vertices[] = {\n    "
      + Join(", ", seq(|vertices|, i requires 0 <= i < |vertices| => VertexToStr(vertices[i], show)))
      + "\n};\nvoltage::FaceDefinition " + variable + "Faces[] = {\n    "
      + Join(", ", seq(|faces|, i requires 0 <= i < |faces| => FaceToStr(faces[i])))
      + "\n};\n" + MeshCall(variable, |vertices|, |faces|)
  }

  /** The counts in the Mesh call are those of the converted lines. */
  lemma OutputCounts(lines: seq<string>, variable: string, show: real -> string)
    requires Converted(lines).Some?
    ensures var (vs, fs) := Converted(lines).value;
      var out := Output(variable, vs, fs, show);
      var call := MeshCall(variable, CountStarting(lines, "v "), CountStarting(lines, "f "));
      |call| <= |out| && out[|out| - |call|..] == call
  {
    ConvertedCounts(lines);
  }
}
