/**
 * The options file written by the worker (run.py:53-61): one line per contract,
 * `side,date,strike,bid,ask,impliedVolatility` terminated by a newline, with the
 * puts of an expiration date before its calls. The numeric contract fields arrive
 * already rendered by Python's `str()` of a float, so they are opaque strings
 * without commas. `ParseLine` reads a line back and inverts `Line`.
 */
module OptionsCsv {
  import opened Wrappers
  import Decimal

  datatype Side = Put | Call

  /** One contract of an options chain, fields as rendered for output. */
  datatype Contract = Contract(strike: string, bid: string, ask: string, impliedVolatility: string)

  /** What a line of the options file records. */
  datatype OptionRow = OptionRow(side: Side, date: int, contract: Contract)

  /** The chain detail for one expiration date: its puts and its calls. */
  datatype Chain = Chain(date: int, puts: seq<Contract>, calls: seq<Contract>)

  function SideLetter(side: Side): string
  {
    match side
    case Put => "P"
    case Call => "C"
  }

  /** The contract's rendered fields contain no comma, so they stay separate columns. */
  predicate CommaFree(c: Contract)
  {
    ',' !in c.strike && ',' !in c.bid && ',' !in c.ask && ',' !in c.impliedVolatility
  }

  /** The six columns of a contract's line, in output order. */
  function Fields(side: Side, date: int, c: Contract): seq<string>
  {
    [SideLetter(side), Decimal.IntText(date), c.strike, c.bid, c.ask, c.impliedVolatility]
  }

  /** The fields separated by `sep`, like Python's `sep.join(fields)`. */
  function Join(fields: seq<string>, sep: char): string
  {
    if |fields| == 0 then ""
    else if |fields| == 1 then fields[0]
    else fields[0] + [sep] + Join(fields[1..], sep)
  }

  /** The text written for one contract: its fields joined by commas, then a newline. */
  function Line(side: Side, date: int, c: Contract): string
  {
    Join(Fields(side, date, c), ',') + "\n"
  }

  /**
   * Whatever the contract's fields hold, its line starts with the side letter
   * and the date, each followed by a comma, and ends with the newline.
   */
  lemma LineShape(side: Side, date: int, c: Contract)
    ensures var l := Line(side, date, c); var d := Decimal.IntText(date);
      && |l| > 2 + |d|
      && l[0] == (if side == Put then 'P' else 'C') && l[1] == ','
      && l[2..2 + |d|] == d && l[2 + |d|] == ','
      && l[|l| - 1] == '\n'
  {
    var f := Fields(side, date, c);
    assert Join(f, ',') == f[0] + [','] + (f[1] + [','] + Join(f[2..], ','));
  }

  /** The lines written for one side of one expiration date, in the order the chain lists them. */
  function SideLines(side: Side, date: int, cs: seq<Contract>): (lines: seq<string>)
    ensures |lines| == |cs|
    ensures forall i :: 0 <= i < |cs| ==> lines[i] == Line(side, date, cs[i])
  {
    if |cs| == 0 then [] else [Line(side, date, cs[0])] + SideLines(side, date, cs[1..])
  }

  /** The lines written for one expiration date: every put, then every call. */
  function ChainLines(ch: Chain): seq<string>
  {
    SideLines(Put, ch.date, ch.puts) + SideLines(Call, ch.date, ch.calls)
  }

  /** Splits on every occurrence of `sep`, like Python's `s.split(sep)`. */
  function Split(s: string, sep: char): (fields: seq<string>)
    ensures 1 <= |fields|
  {
    if |s| == 0 then [""]
    else if s[0] == sep then [""] + Split(s[1..], sep)
    else var rest := Split(s[1..], sep); [[s[0]] + rest[0]] + rest[1..]
  }

  /** Reads one options line back; None when it is not six comma-separated fields and a newline. */
  function ParseLine(line: string): Option<OptionRow>
  {
    if |line| == 0 || line[|line| - 1] != '\n' then None
    else
      var f := Split(line[..|line| - 1], ',');
      if |f| != 6 then None
      else
        var side := if f[0] == "P" then Some(Put) else if f[0] == "C" then Some(Call) else None;
        match (side, Decimal.ParseInt(f[1]))
        case (Some(s), Some(d)) => Some(OptionRow(s, d, Contract(f[2], f[3], f[4], f[5])))
        case _ => None
  }

  lemma {:induction false} SplitNoSep(a: string, sep: char)
    requires sep !in a
    ensures Split(a, sep) == [a]
  {
    if |a| > 0 {
      assert a[0] != sep && sep !in a[1..];
      SplitNoSep(a[1..], sep);
      assert [a[0]] + a[1..] == a;
    }
  }

  /** A field without the separator followed by the separator is split off as the first field. */
  lemma {:induction false} SplitField(a: string, sep: char, b: string)
    requires sep !in a
    ensures Split(a + [sep] + b, sep) == [a] + Split(b, sep)
  {
    if |a| == 0 {
      assert a + [sep] + b == [sep] + b;
      assert ([sep] + b)[1..] == b;
    } else {
      assert (a + [sep] + b)[1..] == a[1..] + [sep] + b;
      assert sep !in a[1..];
      SplitField(a[1..], sep, b);
      assert [a[0]] + a[1..] == a;
    }
  }

  /** Splitting joined separator-free fields gives the fields back. */
  lemma {:induction false} SplitJoin(fields: seq<string>, sep: char)
    requires 1 <= |fields|
    requires forall k :: 0 <= k < |fields| ==> sep !in fields[k]
    ensures Split(Join(fields, sep), sep) == fields
  {
    if |fields| == 1 {
      SplitNoSep(fields[0], sep);
    } else {
      SplitField(fields[0], sep, Join(fields[1..], sep));
      SplitJoin(fields[1..], sep);
      assert [fields[0]] + fields[1..] == fields;
    }
  }

  /** Reading a written line gives back its side, its date and its contract. */
  lemma ParseLineOfLine(side: Side, date: int, c: Contract)
    requires CommaFree(c)
    ensures ParseLine(Line(side, date, c)) == Some(OptionRow(side, date, c))
  {
    var f := Fields(side, date, c);
    var l := Line(side, date, c);
    assert l[..|l| - 1] == Join(f, ',');
    SplitJoin(f, ',');
    Decimal.ParseIntText(date);
  }

  /**
   * Each line of an expiration date reads back as that date's contract at the same
   * position: the first |puts| lines are the puts tagged P, the rest the calls tagged C.
   */
  lemma ChainLinesRead(ch: Chain)
    requires forall c :: c in ch.puts ==> CommaFree(c)
    requires forall c :: c in ch.calls ==> CommaFree(c)
    ensures |ChainLines(ch)| == |ch.puts| + |ch.calls|
    ensures forall i :: 0 <= i < |ch.puts| ==>
      ParseLine(ChainLines(ch)[i]) == Some(OptionRow(Put, ch.date, ch.puts[i]))
    ensures forall i :: 0 <= i < |ch.calls| ==>
      ParseLine(ChainLines(ch)[|ch.puts| + i]) == Some(OptionRow(Call, ch.date, ch.calls[i]))
  {
    var lines := ChainLines(ch);
    forall i | 0 <= i < |ch.puts|
      ensures ParseLine(lines[i]) == Some(OptionRow(Put, ch.date, ch.puts[i]))
    {
      assert ch.puts[i] in ch.puts;
      ParseLineOfLine(Put, ch.date, ch.puts[i]);
    }
    forall i | 0 <= i < |ch.calls|
      ensures ParseLine(lines[|ch.puts| + i]) == Some(OptionRow(Call, ch.date, ch.calls[i]))
    {
      assert ch.calls[i] in ch.calls;
      ParseLineOfLine(Call, ch.date, ch.calls[i]);
    }
  }
}
