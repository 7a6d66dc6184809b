/**
  The pieces of java.lang that the order code leans on, stated exactly:
  String.replace of one character, String.split on a one-character
  pattern (trailing empty strings dropped), String.join,
  Long.parseLong / Long.valueOf and String.valueOf(long).
  Exceptions are values: an operation that may throw returns an Outcome.
*/
module JavaLang {

  datatype Option<+T> = None | Some(value: T)

  /** The unchecked exceptions the modelled code can raise. */
  datatype JavaException =
    | IndexOutOfBounds   // split[k] read past the end of the array
    | NumberFormat       // Long.parseLong / Long.valueOf of a non-number
    | IllegalArgument    // Timestamp.valueOf of a malformed timestamp
    | NoSuchElement      // Optional.get() of an empty Optional
    | OrderNotFound      // the RuntimeException thrown by updateOrderStatus

  /** The result of a Java call that either returns a value or throws. */
  datatype Outcome<+T> = Done(value: T) | Threw(exception: JavaException)

  const LONG_MIN: int := -0x8000_0000_0000_0000
  const LONG_MAX: int := 0x7fff_ffff_ffff_ffff

  // ---------------------------------------------------------------------
  // String.replace("\"", "")

  /** Deletes every double quote and keeps every other character in order. */
  function RemoveQuotes(s: string): (r: string)
    ensures '"' !in r
    ensures |r| <= |s|
    ensures forall c :: c in r <==> c in s && c != '"'
    ensures '"' !in s ==> r == s
  {
    if s == [] then []
    else if s[0] == '"' then RemoveQuotes(s[1..])
    else [s[0]] + RemoveQuotes(s[1..])
  }

  // ---------------------------------------------------------------------
  // String.join / Collectors.joining

  /** String.join(sep, parts): the parts with one separator between neighbours. */
  function Join(parts: seq<string>, sep: char): (s: string)
    ensures |parts| > 0 ==> parts[0] <= s
    ensures |parts| > 0 ==> |s| == TotalLength(parts) + |parts| - 1
  {
    if |parts| == 0 then ""
    else if |parts| == 1 then parts[0]
    else parts[0] + [sep] + Join(parts[1..], sep)
  }

  /** The summed lengths of the parts. */
  function TotalLength(parts: seq<string>): nat
  {
    if parts == [] then 0 else |parts[0]| + TotalLength(parts[1..])
  }

  /** The position of the first occurrence of c in s. */
  function FirstIndex(s: string, c: char): (k: nat)
    requires c in s
    ensures k < |s| && s[k] == c && c !in s[..k]
  {
    if s[0] == c then 0
    else
      var k := 1 + FirstIndex(s[1..], c);
      assert s[..k] == [s[0]] + s[1..][..k - 1];
      k
  }

  /** Every piece between two occurrences of sep, empty pieces included. */
  function SplitAll(s: string, sep: char): (parts: seq<string>)
    ensures |parts| >= 1
    ensures forall p :: p in parts ==> sep !in p
    ensures Join(parts, sep) == s
    ensures (sep in s) <==> |parts| >= 2
    decreases |s|
  {
    if sep !in s then [s]
    else
      var k := FirstIndex(s, sep);
      var rest := SplitAll(s[k + 1..], sep);
      assert s == s[..k] + [sep] + s[k + 1..];
      [s[..k]] + rest
  }

  /** Removes the empty strings at the end, as String.split with limit 0 does. */
  function DropTrailingEmpty(parts: seq<string>): (r: seq<string>)
    ensures |r| <= |parts| && r == parts[..|r|]
    ensures r != [] ==> r[|r| - 1] != ""
    ensures forall i :: |r| <= i < |parts| ==> parts[i] == ""
  {
    if parts == [] then []
    else if parts[|parts| - 1] == "" then DropTrailingEmpty(parts[..|parts| - 1])
    else parts
  }

  /**
    s.split(String.valueOf(sep)): a string without the separator is returned
    whole (so "" gives [""]); otherwise the pieces, with trailing empty
    pieces removed (so "1,a,b,c," has four fields and ",," has none).
  */
  function JavaSplit(s: string, sep: char): (fields: seq<string>)
    ensures forall f :: f in fields ==> sep !in f
    ensures sep !in s ==> fields == [s]
    ensures sep in s ==> fields == DropTrailingEmpty(SplitAll(s, sep))
  {
    if sep !in s then [s] else DropTrailingEmpty(SplitAll(s, sep))
  }

  /** The first separator after a separator-free piece is the one right after it. */
  lemma {:induction false} FirstIndexAfter(p: string, rest: string, sep: char)
    requires sep !in p
    ensures FirstIndex(p + [sep] + rest, sep) == |p|
  {
    var s := p + [sep] + rest;
    if p != [] {
      assert s[0] == p[0] && p[0] in p;
      assert s[1..] == p[1..] + [sep] + rest;
      assert forall c :: c in p[1..] ==> c in p;
      FirstIndexAfter(p[1..], rest, sep);
    }
  }

  /** A separator-free first piece followed by the separator splits off as the first part. */
  lemma SplitAllStep(p: string, rest: string, sep: char)
    requires sep !in p
    ensures SplitAll(p + [sep] + rest, sep) == [p] + SplitAll(rest, sep)
  {
    var s := p + [sep] + rest;
    assert s[|p|] == sep;
    FirstIndexAfter(p, rest, sep);
    assert s[..|p|] == p;
    assert s[|p| + 1..] == rest;
  }

  /** Splitting a joined sequence of separator-free parts gives the parts back. */
  lemma {:induction false} SplitAllJoin(parts: seq<string>, sep: char)
    requires |parts| >= 1
    requires forall p :: p in parts ==> sep !in p
    ensures SplitAll(Join(parts, sep), sep) == parts
    decreases |parts|
  {
    assert parts[0] in parts;
    if |parts| > 1 {
      assert Join(parts, sep) == parts[0] + [sep] + Join(parts[1..], sep);
      SplitAllStep(parts[0], Join(parts[1..], sep), sep);
      assert forall p :: p in parts[1..] ==> p in parts;
      SplitAllJoin(parts[1..], sep);
      assert parts == [parts[0]] + parts[1..];
    }
  }

  /**
    The Java split undoes String.join when no part holds the separator and
    the last part is not empty (or there is just one part).
  */
  lemma SplitJoinRoundTrip(parts: seq<string>, sep: char)
    requires |parts| >= 1
    requires forall p :: p in parts ==> sep !in p
    requires |parts| == 1 || parts[|parts| - 1] != ""
    ensures JavaSplit(Join(parts, sep), sep) == parts
  {
    SplitAllJoin(parts, sep);
    var s := Join(parts, sep);
    if sep in s {
      assert DropTrailingEmpty(parts) == parts;
    }
  }

  /** With two or more parts the separator occurs, so the Java split drops the empty tail. */
  lemma JavaSplitOfJoin(parts: seq<string>, sep: char)
    requires |parts| >= 2
    requires forall p :: p in parts ==> sep !in p
    ensures JavaSplit(Join(parts, sep), sep) == DropTrailingEmpty(parts)
  {
    SplitAllJoin(parts, sep);
  }

  /** A trailing separator is dropped: "1,a,b,c," has four fields. */
  lemma TrailingSeparatorDropped()
    ensures JavaSplit("1,a,b,c,", ',') == ["1", "a", "b", "c"]
  {
    var parts := ["1", "a", "b", "c", ""];
    JoinWithTrailingEmpty();
    PartsWithoutComma(parts);
    JavaSplitOfJoin(parts, ',');
    assert parts[..4] == ["1", "a", "b", "c"];
    assert DropTrailingEmpty(parts) == DropTrailingEmpty(parts[..4]);
  }

  lemma PartsWithoutComma(parts: seq<string>)
    requires parts == ["1", "a", "b", "c", ""]
    ensures forall p :: p in parts ==> ',' !in p
  {
    forall p | p in parts ensures ',' !in p {
      assert p == "1" || p == "a" || p == "b" || p == "c" || p == "";
    }
  }

  lemma JoinWithTrailingEmpty()
    ensures Join(["1", "a", "b", "c", ""], ',') == "1,a,b,c,"
  {
    var parts := ["1", "a", "b", "c", ""];
    assert Join(parts[4..], ',') == "";
    assert Join(parts[3..], ',') == "c,";
    assert Join(parts[2..], ',') == "b,c,";
    assert Join(parts[1..], ',') == "a,b,c,";
  }

  /** Only empty parts: the Java split keeps none of them. */
  lemma {:induction false} AllEmptyDropped(parts: seq<string>)
    requires forall i :: 0 <= i < |parts| ==> parts[i] == ""
    ensures DropTrailingEmpty(parts) == []
  {
    if parts != [] {
      AllEmptyDropped(parts[..|parts| - 1]);
    }
  }

  /** A line of separators only has no fields at all. */
  lemma SeparatorsOnlyGiveNoFields()
    ensures JavaSplit(",,", ',') == []
  {
    var parts := ["", "", ""];
    assert Join(parts[2..], ',') == "";
    assert Join(parts[1..], ',') == ",";
    assert Join(parts, ',') == ",,";
    JavaSplitOfJoin(parts, ',');
    AllEmptyDropped(parts);
  }

  /** Joining never introduces a character other than the separator. */
  /** A join of parts free of the separator and of c splits back into the parts and has no c. */
  lemma PlainJoin(parts: seq<string>, sep: char, c: char)
    requires |parts| >= 1 && c != sep
    requires forall p :: p in parts ==> sep !in p && c !in p
    ensures SplitAll(Join(parts, sep), sep) == parts && c !in Join(parts, sep)
  {
    SplitAllJoin(parts, sep);
    JoinAvoids(parts, sep, c);
  }

  lemma {:induction false} JoinAvoids(parts: seq<string>, sep: char, c: char)
    requires c != sep
    requires forall p :: p in parts ==> c !in p
    ensures c !in Join(parts, sep)
  {
    if |parts| > 1 {
      JoinAvoids(parts[1..], sep, c);
      assert parts[0] in parts;
    } else if |parts| == 1 {
      assert parts[0] in parts;
    }
  }

  // ---------------------------------------------------------------------
  // BufferedReader.readLine

  /**
    The lines BufferedReader.readLine returns one by one from a text with
    '\n' line ends (and no '\r'): the pieces between line ends, where a
    final line end does not start another line and the empty text has none.
  */
  function ReadLines(s: string): (lines: seq<string>)
    ensures forall l :: l in lines ==> '\n' !in l
    ensures s == "" ==> lines == []
  {
    if s == "" then []
    else
      var parts := SplitAll(s, '\n');
      if parts[|parts| - 1] == "" then parts[..|parts| - 1] else parts
  }

  /**
    A header line followed by body lines, all joined by '\n' with a line end
    after the header, reads back as the header and the body lines (a body
    whose last line is not empty).
  */
  lemma ReadLinesAfterHeader(header: string, body: seq<string>)
    requires '\n' !in header && forall l :: l in body ==> '\n' !in l
    requires body != [] ==> body[|body| - 1] != ""
    ensures ReadLines(header + "\n" + Join(body, '\n')) == [header] + body
  {
    if body == [] {
      ReadLinesOfHeaderAlone(header);
    } else {
      ConsParts(header, body);
      ReadLinesOfJoin([header] + body);
    }
  }

  lemma ConsParts<T>(x: T, xs: seq<T>)
    requires xs != []
    ensures ([x] + xs)[0] == x && ([x] + xs)[1..] == xs && ([x] + xs)[|xs|] == xs[|xs| - 1]
    ensures forall y :: y in [x] + xs ==> y == x || y in xs
  {
  }

  /** The header and a line end read back as the header alone. */
  lemma ReadLinesOfHeaderAlone(header: string)
    requires '\n' !in header
    ensures ReadLines(header + "\n" + Join([], '\n')) == [header]
  {
    var s := header + "\n" + Join([], '\n');
    assert s == header + ['\n'] + "";
    SplitAllStep(header, "", '\n');
    assert SplitAll("", '\n') == [""];
    var parts := [header] + [""];
    assert SplitAll(s, '\n') == parts;
    assert parts[..1] == [header];
  }

  /** Lines joined by '\n', the last not empty, read back as those lines. */
  lemma ReadLinesOfJoin(all: seq<string>)
    requires |all| >= 2 && all[|all| - 1] != ""
    requires forall l :: l in all ==> '\n' !in l
    ensures ReadLines(all[0] + "\n" + Join(all[1..], '\n')) == all
  {
    SplitAllJoin(all, '\n');
    ReadLinesOfPieces(Join(all, '\n'), all);
  }

  /** A text that splits into pieces ending in a non-empty one reads back as those pieces. */
  lemma ReadLinesOfPieces(s: string, pieces: seq<string>)
    requires SplitAll(s, '\n') == pieces && |pieces| >= 2 && pieces[|pieces| - 1] != ""
    ensures ReadLines(s) == pieces
    ensures s == pieces[0] + "\n" + Join(pieces[1..], '\n')
  {
  }

  // ---------------------------------------------------------------------
  // Long.parseLong and String.valueOf(long)

  predicate IsDigit(c: char) { '0' <= c <= '9' }

  predicate AllDigits(s: string) { forall i :: 0 <= i < |s| ==> IsDigit(s[i]) }

  /** The value of a run of decimal digits, most significant first. */
  function DigitsValue(s: string): nat
    requires AllDigits(s)
  {
    if s == [] then 0
    else 10 * DigitsValue(s[..|s| - 1]) + (s[|s| - 1] as int - '0' as int)
  }

  /**
    Long.parseLong(s) in radix 10 (Long.valueOf parses the same way):
    an optional '+' or '-', then at least one digit, and the value must
    fit in 64 bits. Anything else throws NumberFormatException (None here).
  */
  function ParseLong(s: string): (r: Option<int>)
    ensures r.Some? ==> LONG_MIN <= r.value <= LONG_MAX
    ensures r.Some? ==> s != "" && (IsDigit(s[0]) || s[0] == '+' || s[0] == '-')
    ensures r.Some? ==> AllDigits(s[1..])
  {
    if s == [] then None
    else
      var signed := s[0] == '-' || s[0] == '+';
      var digits := if signed then s[1..] else s;
      if digits == [] || !AllDigits(digits) then None
      else
        var v: int := if s[0] == '-' then -(DigitsValue(digits) as int) else DigitsValue(digits);
        if LONG_MIN <= v <= LONG_MAX then Some(v) else None
  }

  function DigitChar(d: nat): (c: char)
    requires d < 10
    ensures IsDigit(c) && c as int - '0' as int == d
  {
    (d + '0' as int) as char
  }

  /** The decimal digits of n, most significant first, no leading zero. */
  function NatToString(n: nat): (s: string)
    ensures s != [] && AllDigits(s)
  {
    if n < 10 then [DigitChar(n)] else NatToString(n / 10) + [DigitChar(n % 10)]
  }

  /** String.valueOf(long): a '-' for negative values, then the digits. */
  function IntToString(n: int): (s: string)
    ensures s != [] && forall c :: c in s ==> IsDigit(c) || c == '-'
  {
    if n < 0 then "-" + NatToString(-n) else NatToString(n)
  }

  lemma {:induction false} DigitsOfNat(n: nat)
    ensures DigitsValue(NatToString(n)) == n
  {
    if n >= 10 {
      var s := NatToString(n);
      assert s[..|s| - 1] == NatToString(n / 10);
      DigitsOfNat(n / 10);
    }
  }

  /** Every 64-bit value printed by String.valueOf parses back to itself. */
  lemma ParseLongRoundTrip(n: int)
    requires LONG_MIN <= n <= LONG_MAX
    ensures ParseLong(IntToString(n)) == Some(n)
    ensures ',' !in IntToString(n) && '"' !in IntToString(n) && IntToString(n) != ""
  {
    if n < 0 {
      DigitsOfNat(-n);
      var s := IntToString(n);
      assert s[1..] == NatToString(-n);
      assert ',' !in s by {
        forall i | 0 <= i < |s| ensures s[i] != ',' {
          if i > 0 { assert s[i] == s[1..][i - 1]; }
        }
      }
    } else {
      DigitsOfNat(n);
      var s := NatToString(n);
      assert IsDigit(s[0]);
      assert ',' !in s by {
        forall i | 0 <= i < |s| ensures s[i] != ',' { assert IsDigit(s[i]); }
      }
    }
  }
}
