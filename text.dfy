/** Decimal formatting of unsigned counters, as a std::stringstream writes
    them, and splitting a line at a separator character. */
module Text {

  predicate IsDigit(c: char) {
    '0' <= c <= '9'
  }

  predicate AllDigits(s: string) {
    forall i | 0 <= i < |s| :: IsDigit(s[i])
  }

  function DigitChar(d: nat): (c: char)
    requires d < 10
    ensures IsDigit(c)
  {
    ('0' as int + d) as char
  }

  function DigitValue(c: char): nat
    requires IsDigit(c)
  {
    c as int - '0' as int
  }

  /** The decimal representation of n, most significant digit first. */
  function NatToString(n: nat): (s: string)
    ensures |s| >= 1 && AllDigits(s)
    ensures |s| > 1 ==> s[0] != '0'
  {
    if n < 10 then [DigitChar(n)] else NatToString(n / 10) + [DigitChar(n % 10)]
  }

  /** Reads a string of decimal digits back as a number. */
  function ParseNat(s: string): nat
    requires AllDigits(s)
  {
    if s == [] then 0 else ParseNat(s[..|s| - 1]) * 10 + DigitValue(s[|s| - 1])
  }

  /** Reading back the decimal representation yields the number again. */
  lemma {:induction false} ParseNatToString(n: nat)
    ensures ParseNat(NatToString(n)) == n
  {
    var s := NatToString(n);
    if n >= 10 {
      ParseNatToString(n / 10);
      assert s[..|s| - 1] == NatToString(n / 10);
    }
  }

  /** The fields of s between occurrences of sep. */
  function Split(s: string, sep: char): (fields: seq<string>)
    ensures |fields| >= 1
  {
    if s == [] then [""]
    else
      var rest := Split(s[1..], sep);
      if s[0] == sep then [""] + rest else [[s[0]] + rest[0]] + rest[1..]
  }

  lemma {:induction false} SplitNoSeparator(s: string, sep: char)
    requires sep !in s
    ensures Split(s, sep) == [s]
  {
    if s != [] {
      SplitNoSeparator(s[1..], sep);
      assert [s[0]] + s[1..] == s;
    }
  }

  /** A leading field without the separator splits off as one field. */
  lemma {:induction false} SplitField(x: string, sep: char, t: string)
    requires sep !in x
    ensures Split(x + [sep] + t, sep) == [x] + Split(t, sep)
  {
    if x == [] {
      assert x + [sep] + t == [sep] + t;
      assert ([sep] + t)[1..] == t;
    } else {
      var s := x + [sep] + t;
      assert s[1..] == x[1..] + [sep] + t;
      SplitField(x[1..], sep, t);
      assert [x[0]] + x[1..] == x;
    }
  }

  /** The fields with sep written between each two of them. */
  function Join(fields: seq<string>, sep: string): string {
    if fields == [] then ""
    else if |fields| == 1 then fields[0]
    else fields[0] + sep + Join(fields[1..], sep)
  }

  /** The fields after the first, each with pad in front. */
  function Padded(fields: seq<string>, pad: string): (r: seq<string>)
    ensures |r| == |fields|
    ensures forall i | 0 < i < |fields| :: r[i] == pad + fields[i]
    ensures fields != [] ==> r[0] == fields[0]
  {
    if fields == [] then [] else [fields[0]] + seq(|fields| - 1, i requires 0 <= i < |fields| - 1 => pad + fields[i + 1])
  }

  lemma PaddedEmpty(fields: seq<string>)
    ensures Padded(fields, "") == fields
  {
    forall i | 0 < i < |fields| ensures "" + fields[i] == fields[i] {
    }
  }

  /** Text in front of the first separator lands in the first field. */
  lemma {:induction false} SplitPrefix(pad: string, x: string, sep: char)
    requires sep !in pad
    ensures Split(pad + x, sep) == [pad + Split(x, sep)[0]] + Split(x, sep)[1..]
  {
    var fields := Split(x, sep);
    if pad == [] {
      assert pad + x == x;
      assert pad + fields[0] == fields[0];
      assert fields == [fields[0]] + fields[1..];
    } else {
      SplitPrefix(pad[1..], x, sep);
      var s := pad + x;
      assert s[0] == pad[0] && s[1..] == pad[1..] + x;
      var rest := Split(s[1..], sep);
      assert rest[0] == pad[1..] + fields[0] && rest[1..] == fields[1..];
      assert Split(s, sep) == [[pad[0]] + rest[0]] + rest[1..];
      assert [pad[0]] + (pad[1..] + fields[0]) == pad + fields[0];
    }
  }

  /** Splitting at the first character of the separator gives the fields
      back, the later ones with the rest of the separator in front. */
  lemma {:induction false} SplitJoin(fields: seq<string>, sep: char, pad: string)
    requires fields != [] && sep !in pad
    requires forall i | 0 <= i < |fields| :: sep !in fields[i]
    ensures Split(Join(fields, [sep] + pad), sep) == Padded(fields, pad)
  {
    if |fields| == 1 {
      SplitNoSeparator(fields[0], sep);
    } else {
      var rest := Join(fields[1..], [sep] + pad);
      SplitJoin(fields[1..], sep, pad);
      assert fields[0] + ([sep] + pad) + rest == fields[0] + [sep] + (pad + rest);
      SplitField(fields[0], sep, pad + rest);
      SplitPrefix(pad, rest, sep);
      assert [fields[0]] + fields[1..] == fields;
    }
  }

  /** A header line: the names joined by a separator none of them
      contains, which splits back into the names. */
  function Header(names: seq<string>, sep: char): (line: string)
    requires names != [] && forall i | 0 <= i < |names| :: sep !in names[i]
    ensures Split(line, sep) == names
  {
    SplitJoin(names, sep, "");
    assert [sep] + "" == [sep];
    PaddedEmpty(names);
    Join(names, [sep])
  }

  lemma DigitsHaveNoSeparator(s: string, sep: char)
    requires AllDigits(s) && !IsDigit(sep)
    ensures sep !in s
  {
  }

  /** The decimal representations of the values. */
  function NatStrings(vs: seq<nat>): (r: seq<string>)
    ensures |r| == |vs| && forall i | 0 <= i < |vs| :: r[i] == NatToString(vs[i])
  {
    seq(|vs|, i requires 0 <= i < |vs| => NatToString(vs[i]))
  }

  /** Values written in decimal and separated by a non-digit are read back
      field by field. */
  lemma ReadBack(vs: seq<nat>, sep: char)
    requires vs != [] && !IsDigit(sep)
    ensures Split(Join(NatStrings(vs), [sep]), sep) == NatStrings(vs)
    ensures var fields := Split(Join(NatStrings(vs), [sep]), sep);
      |fields| == |vs| && forall i | 0 <= i < |vs| :: AllDigits(fields[i]) && ParseNat(fields[i]) == vs[i]
  {
    var strs := NatStrings(vs);
    forall i | 0 <= i < |strs| ensures sep !in strs[i] {
      DigitsHaveNoSeparator(strs[i], sep);
    }
    SplitJoin(strs, sep, "");
    assert [sep] + "" == [sep];
    PaddedEmpty(strs);
    forall i | 0 <= i < |vs| ensures ParseNat(NatToString(vs[i])) == vs[i] {
      ParseNatToString(vs[i]);
    }
  }
}
