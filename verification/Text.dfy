/** Separator-joined text and canonical decimal numbers, as the shell scripts
    print and re-read them. */
module Text {

  datatype Option<+T> = None | Some(value: T)

  /** Fields joined by one separator character. */
  function Join(fields: seq<string>, sep: char): string
    requires |fields| > 0
  {
    if |fields| == 1 then fields[0] else fields[0] + [sep] + Join(fields[1..], sep)
  }

  /** The fields of a line; a line without the separator is one field. */
  function Split(line: string, sep: char): (fields: seq<string>)
    ensures |fields| > 0
    ensures forall i :: 0 <= i < |fields| ==> sep !in fields[i]
  {
    if |line| == 0 then [""]
    else
      var rest := Split(line[1..], sep);
      if line[0] == sep then [""] + rest else [[line[0]] + rest[0]] + rest[1..]
  }

  lemma {:induction false} SplitField(field: string, rest: string, sep: char)
    requires sep !in field
    ensures Split(field + [sep] + rest, sep) == [field] + Split(rest, sep)
  {
    var line := field + [sep] + rest;
    if |field| == 0 {
      assert line[1..] == rest;
    } else {
      assert line[1..] == field[1..] + [sep] + rest;
      SplitField(field[1..], rest, sep);
      assert [field[0]] + field[1..] == field;
    }
  }

  lemma {:induction false} SplitWhole(field: string, sep: char)
    requires sep !in field
    ensures Split(field, sep) == [field]
  {
    if |field| > 0 {
      SplitWhole(field[1..], sep);
      assert [field[0]] + field[1..] == field;
    }
  }

  /** Reading back what was printed gives the printed fields. */
  lemma {:induction false} SplitJoin(fields: seq<string>, sep: char)
    requires |fields| > 0
    requires forall i :: 0 <= i < |fields| ==> sep !in fields[i]
    ensures Split(Join(fields, sep), sep) == fields
  {
    if |fields| == 1 {
      SplitWhole(fields[0], sep);
    } else {
      SplitJoin(fields[1..], sep);
      SplitField(fields[0], Join(fields[1..], sep), sep);
    }
  }

  lemma JoinCons(field: string, fields: seq<string>, sep: char)
    requires |fields| > 0
    ensures Join([field] + fields, sep) == field + [sep] + Join(fields, sep)
  {
    assert ([field] + fields)[1..] == fields;
  }

  lemma JoinPrefix(c: char, fields: seq<string>, sep: char)
    requires |fields| > 0
    ensures Join([[c] + fields[0]] + fields[1..], sep) == [c] + Join(fields, sep)
  {
    var prefixed := [[c] + fields[0]] + fields[1..];
    assert prefixed[1..] == fields[1..] && prefixed[0] == [c] + fields[0];
    if |fields| > 1 {
      var rest := Join(fields[1..], sep);
      assert ([c] + fields[0]) + [sep] + rest == [c] + (fields[0] + [sep] + rest);
    }
  }

  /** Every line is the join of its own fields. */
  lemma {:induction false} JoinSplit(line: string, sep: char)
    ensures Join(Split(line, sep), sep) == line
  {
    assert Join([""], sep) == "";
    hide Join;
    if line != "" {
      var rest := Split(line[1..], sep);
      JoinSplit(line[1..], sep);
      if line[0] == sep { JoinCons("", rest, sep); } else { JoinPrefix(line[0], rest, sep); }
      assert [line[0]] + line[1..] == line;
    }
  }

  // Canonical decimals: 0, or digits without a leading zero.

  predicate IsDigit(c: char) { '0' <= c <= '9' }

  function Digit(n: nat): (c: char)
    requires n < 10
    ensures IsDigit(c)
  {
    '0' + n as char
  }

  function DigitValue(c: char): (n: nat)
    requires IsDigit(c)
    ensures n < 10
  {
    (c - '0') as nat
  }

  function Decimal(n: nat): (s: string)
    ensures |s| > 0 && forall i :: 0 <= i < |s| ==> IsDigit(s[i])
    decreases n
  {
    if n < 10 then [Digit(n)] else Decimal(n / 10) + [Digit(n % 10)]
  }

  function Zeros(n: nat): string { seq(n, i => '0') }

  /** padStart(width, "0") */
  function PadStart(s: string, width: nat): string { if |s| < width then Zeros(width - |s|) + s else s }

  predicate AllDigits(s: string) { |s| > 0 && forall i :: 0 <= i < |s| ==> IsDigit(s[i]) }

  /** The numeric value of a digit string, leading zeros included. */
  function Value(s: string): nat
    requires AllDigits(s)
    decreases |s|
  {
    if |s| == 1 then DigitValue(s[0])
    else 10 * Value(s[..|s| - 1]) + DigitValue(s[|s| - 1])
  }

  /** The pattern 0|[1-9][0-9]* of the scripts. */
  predicate IsCanonical(s: string) { AllDigits(s) && (s[0] != '0' || s == "0") }

  lemma {:induction false} DecimalRoundTrip(n: nat)
    ensures IsCanonical(Decimal(n)) && Value(Decimal(n)) == n
    ensures n > 0 ==> Decimal(n)[0] != '0'
  {
    if n >= 10 {
      DecimalRoundTrip(n / 10);
      var s := Decimal(n);
      assert s[..|s| - 1] == Decimal(n / 10);
      assert s[0] == Decimal(n / 10)[0];
    }
  }

  lemma TensAndUnits(tens: nat, units: nat)
    requires units < 10
    ensures (10 * tens + units) / 10 == tens && (10 * tens + units) % 10 == units
  {
  }

  lemma {:induction false} ValueRoundTrip(s: string)
    requires IsCanonical(s)
    ensures Decimal(Value(s)) == s
    ensures s[0] != '0' ==> Value(s) > 0
    decreases |s|
  {
    if |s| > 1 {
      var front, last := s[..|s| - 1], s[|s| - 1];
      assert front[0] == s[0];
      ValueRoundTrip(front);
      assert Value(front) > 0;
      var tens, units := Value(front), DigitValue(last);
      assert Value(s) == 10 * tens + units;
      TensAndUnits(tens, units);
      assert Decimal(Value(s)) == Decimal(tens) + [Digit(units)];
      assert s == front + [last];
    }
  }
}
