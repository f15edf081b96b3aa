/**
 * The per-symbol worker `Stock.run` (run.py:33-71) as the sequence of side
 * effects it performs. Each HTTP request is reduced to its outcome: whether the
 * response was ok and, where the worker reads it, its body or parsed content.
 * The worker fetches the quote page, checks for `CrumbStore`, reads the crumb,
 * requests the price history (whose status it never looks at) and the options
 * summary; only an ok summary sets `success`. It then opens the options file,
 * writes every contract date by date, returning at the first failed per-date
 * request, and on completion writes the price file and runs the calculator.
 * The options file is closed when the `with` block of run.py:51 is left, so
 * only after the calculator has run, or right after the last line when a date
 * fails.
 *
 * A request that raises instead of answering ends the thread. For the quote
 * page and the options summary that has the same effect as a response that is
 * not ok (nothing happens), and for a per-date request the same effect as a
 * failed reply (the `with` block is left and the file closed); only the price
 * history needs its own flag, because its status is otherwise never read.
 */
module Worker {
  import opened Wrappers
  import opened PyStr
  import Crumb
  import opened OptionsCsv

  /** The response to one per-date options request (run.py:54): its status and the parsed chain. */
  datatype DateReply = DateReply(ok: bool, chain: Chain)

  /** What upstream answers for one symbol, in the order the worker asks. */
  datatype Upstream = Upstream(
    quoteOk: bool,            // status of the quote page, run.py:35
    quotePage: string,        // its text, searched at run.py:37-38
    crumbFound: bool,         // json.loads of Crumb.CrumbJson(quotePage) gives CrumbStore.crumb, run.py:40-41
    historyArrived: bool,     // the price-history request answered rather than raised, run.py:41
    historyOk: bool,          // status of the price-history download, run.py:41
    history: string,          // its text, written back at run.py:67-70
    summaryOk: bool,          // status of the options summary, run.py:43
    replies: seq<DateReply>)  // one reply per summary expiration date, in summary order; replies[i].chain.date
                              // is the i-th expiration date of the summary (the loop variable of run.py:53),
                              // not a value read from the reply

  /** The worker's observable side effects. */
  datatype Effect =
    | OpenOptionsFile(symbol: string)
    | WriteLine(symbol: string, line: string)
    | WritePriceFile(symbol: string, history: string)
    | RunCalc(symbol: string)
    | CloseOptionsFile(symbol: string)

  /** The files a run leaves on disk. */
  datatype OutputFile = OptionsFile(symbol: string) | PriceFile(symbol: string)

  /** The `success` flag after the guarded block of run.py:35-47. */
  predicate Succeeded(up: Upstream)
  {
    up.quoteOk && Contains(up.quotePage, Crumb.Marker) && up.crumbFound && up.historyArrived && up.summaryOk
  }

  /** A worker that succeeded had a crumb JSON text to parse: the guard of run.py:37 is the one `Crumb` uses. */
  lemma SucceededHasCrumbJson(up: Upstream)
    requires Succeeded(up)
    ensures Crumb.CrumbJson(up.quotePage).Some?
    ensures Crumb.CrumbSpan(up.quotePage).Some?
  {
  }

  /**
   * `crumbFound` agrees with the page: the JSON text `{}` has no `CrumbStore`
   * key, so indexing it at run.py:41 raises and no crumb is found.
   */
  ghost predicate CrumbConsistent(up: Upstream)
  {
    up.crumbFound ==> Crumb.CrumbJson(up.quotePage) != Some("{}")
  }

  /** One write per line, in order, to the symbol's options file. */
  function Writes(symbol: string, lines: seq<string>): (t: seq<Effect>)
    ensures |t| == |lines|
    ensures forall i :: 0 <= i < |t| ==> t[i] == WriteLine(symbol, lines[i])
  {
    seq(|lines|, i requires 0 <= i < |lines| => WriteLine(symbol, lines[i]))
  }

  /** The loop over expiration dates (run.py:53-65) followed by the price file and the calculator (run.py:67-71). */
  function DateLoop(symbol: string, history: string, replies: seq<DateReply>): (t: seq<Effect>)
    ensures forall i :: 0 <= i < |t| ==> t[i].symbol == symbol
  {
    if |replies| == 0 then [WritePriceFile(symbol, history), RunCalc(symbol)]
    else if !replies[0].ok then []
    else Writes(symbol, ChainLines(replies[0].chain)) + DateLoop(symbol, history, replies[1..])
  }

  /** `Stock.run` for one symbol. */
  function Run(symbol: string, up: Upstream): (t: seq<Effect>)
    ensures !up.quoteOk ==> t == []
    ensures !Contains(up.quotePage, Crumb.Marker) ==> t == []
    ensures !up.historyArrived ==> t == []
    ensures !up.summaryOk ==> t == []
    ensures t != [] <==> Succeeded(up)
    ensures t != [] ==> t[0] == OpenOptionsFile(symbol) && t[|t| - 1] == CloseOptionsFile(symbol)
  {
    if Succeeded(up) then [OpenOptionsFile(symbol)] + DateLoop(symbol, up.history, up.replies) + [CloseOptionsFile(symbol)]
    else []
  }

  // ---------------------------------------------------------------------------
  // Reference description of a run: the index of the first failed date decides
  // everything that is written.
  // ---------------------------------------------------------------------------

  /** The number of leading per-date replies that are ok. */
  function FirstFailure(replies: seq<DateReply>): (n: nat)
    ensures n <= |replies|
    ensures forall j :: 0 <= j < n ==> replies[j].ok
    ensures n < |replies| ==> !replies[n].ok
  {
    if |replies| == 0 || !replies[0].ok then 0 else 1 + FirstFailure(replies[1..])
  }

  /** The options lines of the given dates, one date after another. */
  function OptionsLines(replies: seq<DateReply>): seq<string>
  {
    if |replies| == 0 then [] else ChainLines(replies[0].chain) + OptionsLines(replies[1..])
  }

  /** What follows the date loop: the price file and the calculator when every date was written, else nothing. */
  function Completion(symbol: string, history: string, complete: bool): seq<Effect>
  {
    if complete then [WritePriceFile(symbol, history), RunCalc(symbol)] else []
  }

  lemma WritesAppend(symbol: string, a: seq<string>, b: seq<string>)
    ensures Writes(symbol, a + b) == Writes(symbol, a) + Writes(symbol, b)
  {
  }

  lemma OptionsLinesOfPrefix(replies: seq<DateReply>, n: nat)
    requires 1 <= n <= |replies|
    ensures OptionsLines(replies[..n]) == ChainLines(replies[0].chain) + OptionsLines(replies[1..][..n - 1])
  {
    assert replies[..n][1..] == replies[1..][..n - 1];
  }

  /** The date loop writes the dates before the first failure and completes only when there is none. */
  lemma {:induction false} DateLoopClosedForm(symbol: string, history: string, replies: seq<DateReply>)
    ensures DateLoop(symbol, history, replies)
         == Writes(symbol, OptionsLines(replies[..FirstFailure(replies)]))
            + Completion(symbol, history, FirstFailure(replies) == |replies|)
  {
    var n := FirstFailure(replies);
    if |replies| == 0 || !replies[0].ok {
      assert replies[..n] == [];
    } else {
      var rest := replies[1..];
      var m := FirstFailure(rest);
      DateLoopClosedForm(symbol, history, rest);
      var head := ChainLines(replies[0].chain);
      OptionsLinesOfPrefix(replies, n);
      WritesAppend(symbol, head, OptionsLines(rest[..m]));
    }
  }

  /**
   * A successful run opens the options file, writes the lines of every date up
   * to the first failed one, and only when no date failed writes the price file
   * and runs the calculator; an unsuccessful run does nothing.
   */
  lemma RunClosedForm(symbol: string, up: Upstream)
    ensures Run(symbol, up) ==
      if !Succeeded(up) then []
      else [OpenOptionsFile(symbol)]
           + Writes(symbol, OptionsLines(up.replies[..FirstFailure(up.replies)]))
           + Completion(symbol, up.history, FirstFailure(up.replies) == |up.replies|)
           + [CloseOptionsFile(symbol)]
  {
    DateLoopClosedForm(symbol, up.history, up.replies);
  }

  /** Whether the price-history response was ok changes nothing the worker does. */
  lemma HistoryStatusIgnored(symbol: string, up: Upstream, b: bool)
    ensures Succeeded(up.(historyOk := b)) == Succeeded(up)
    ensures Run(symbol, up.(historyOk := b)) == Run(symbol, up)
  {
  }

  /**
   * The first failed per-date request ends the run: the options file holds the
   * lines of the earlier dates only, and neither the price file nor the
   * calculator follows.
   */
  lemma FailedDateAborts(symbol: string, up: Upstream, i: nat)
    requires Succeeded(up)
    requires i < |up.replies| && !up.replies[i].ok
    requires forall j :: 0 <= j < i ==> up.replies[j].ok
    ensures Run(symbol, up)
         == [OpenOptionsFile(symbol)] + Writes(symbol, OptionsLines(up.replies[..i])) + [CloseOptionsFile(symbol)]
    ensures WritePriceFile(symbol, up.history) !in Run(symbol, up)
    ensures RunCalc(symbol) !in Run(symbol, up)
  {
    RunClosedForm(symbol, up);
    assert FirstFailure(up.replies) == i;
    AbortedRunEffects(symbol, OptionsLines(up.replies[..i]));
  }

  lemma AbortedRunEffects(symbol: string, lines: seq<string>)
    ensures forall e :: e in [OpenOptionsFile(symbol)] + Writes(symbol, lines) + [CloseOptionsFile(symbol)] ==>
      e.OpenOptionsFile? || e.WriteLine? || e.CloseOptionsFile?
  {
    var w := Writes(symbol, lines);
    forall e | e in [OpenOptionsFile(symbol)] + w + [CloseOptionsFile(symbol)]
      ensures e.OpenOptionsFile? || e.WriteLine? || e.CloseOptionsFile?
    {
      if e != OpenOptionsFile(symbol) && e != CloseOptionsFile(symbol) {
        assert e in w;
      }
    }
  }

  /**
   * With no expiration dates the options file is opened and left empty, then
   * the price file and the calculator follow before it is closed.
   */
  lemma NoExpirationDates(symbol: string, up: Upstream)
    requires Succeeded(up) && up.replies == []
    ensures Run(symbol, up)
         == [OpenOptionsFile(symbol), WritePriceFile(symbol, up.history), RunCalc(symbol), CloseOptionsFile(symbol)]
  {
  }

  /**
   * The calculator runs exactly when the run succeeded and every per-date
   * request was ok; it then comes right after the price file and right before
   * the options file is closed, so it runs while that file is still open.
   */
  lemma CalcFollowsPriceFile(symbol: string, up: Upstream)
    ensures RunCalc(symbol) in Run(symbol, up) <==>
      Succeeded(up) && forall j :: 0 <= j < |up.replies| ==> up.replies[j].ok
    ensures forall i :: 0 <= i < |Run(symbol, up)| && Run(symbol, up)[i].RunCalc? ==>
      && i == |Run(symbol, up)| - 2 && 1 <= i
      && Run(symbol, up)[i - 1] == WritePriceFile(symbol, up.history)
      && Run(symbol, up)[i + 1] == CloseOptionsFile(symbol)
  {
    RunClosedForm(symbol, up);
    if Succeeded(up) {
      var n := FirstFailure(up.replies);
      CalcInSuccessfulRun(symbol, up.history, OptionsLines(up.replies[..n]), n == |up.replies|);
      if n < |up.replies| {
        assert !up.replies[n].ok;
      }
    }
  }

  lemma CalcInSuccessfulRun(symbol: string, history: string, lines: seq<string>, complete: bool)
    ensures var t := [OpenOptionsFile(symbol)] + Writes(symbol, lines) + Completion(symbol, history, complete)
                     + [CloseOptionsFile(symbol)];
      && (RunCalc(symbol) in t <==> complete)
      && forall i :: 0 <= i < |t| && t[i].RunCalc? ==>
           i == |t| - 2 && 1 <= i && t[i - 1] == WritePriceFile(symbol, history) && t[i + 1] == CloseOptionsFile(symbol)
  {
    var w := Writes(symbol, lines);
    var t := [OpenOptionsFile(symbol)] + w + Completion(symbol, history, complete) + [CloseOptionsFile(symbol)];
    assert forall i :: 1 <= i <= |w| ==> t[i] == w[i - 1];
    if complete {
      assert t[|t| - 2] == RunCalc(symbol);
    }
  }

  /**
   * A successful run closes its options file exactly once, as its last effect:
   * after the calculator on a completed run, right after the last line
   * otherwise.
   */
  lemma OptionsFileClosedLast(symbol: string, up: Upstream)
    requires Succeeded(up)
    ensures forall i :: 0 <= i < |Run(symbol, up)| ==> (Run(symbol, up)[i].CloseOptionsFile? <==> i == |Run(symbol, up)| - 1)
  {
    RunClosedForm(symbol, up);
    var n := FirstFailure(up.replies);
    ClosedLastInSuccessfulRun(symbol, up.history, OptionsLines(up.replies[..n]), n == |up.replies|);
  }

  lemma ClosedLastInSuccessfulRun(symbol: string, history: string, lines: seq<string>, complete: bool)
    ensures var t := [OpenOptionsFile(symbol)] + Writes(symbol, lines) + Completion(symbol, history, complete)
                     + [CloseOptionsFile(symbol)];
      forall i :: 0 <= i < |t| ==> (t[i].CloseOptionsFile? <==> i == |t| - 1)
  {
    var w := Writes(symbol, lines);
    var t := [OpenOptionsFile(symbol)] + w + Completion(symbol, history, complete) + [CloseOptionsFile(symbol)];
    assert forall i :: 1 <= i <= |w| ==> t[i] == w[i - 1];
  }

  /**
   * On a page with `CrumbStore` but no `"CrumbStore` the JSON text is `{}`, so
   * when `crumbFound` agrees with the page the worker does nothing.
   */
  lemma CrumblessPageDoesNothing(symbol: string, up: Upstream)
    requires CrumbConsistent(up)
    requires Contains(up.quotePage, Crumb.Marker) && !Contains(up.quotePage, Crumb.QuotedMarker)
    ensures !up.crumbFound
    ensures Run(symbol, up) == []
  {
    Crumb.SpanWithoutQuotedMarker(up.quotePage);
  }

  /**
   * On a page whose first `CrumbStore` is not at its start and has no comma
   * after it the JSON text is `{}` too, so a consistent `crumbFound` is false
   * and the worker does nothing.
   */
  lemma CommalessPageDoesNothing(symbol: string, up: Upstream)
    requires CrumbConsistent(up)
    requires Contains(up.quotePage, Crumb.Marker) && 1 <= Find(up.quotePage, Crumb.Marker)
    requires !Contains(up.quotePage[Find(up.quotePage, Crumb.Marker)..], ",")
    ensures !up.crumbFound
    ensures Run(symbol, up) == []
  {
    Crumb.SpanWithoutComma(up.quotePage);
  }

  /** The file an effect creates, if any. */
  function FileOf(e: Effect): set<OutputFile>
  {
    match e
    case OpenOptionsFile(s) => {OptionsFile(s)}
    case WritePriceFile(s, _) => {PriceFile(s)}
    case _ => {}
  }

  /** The files a trace leaves: the options file once opened, the price file once written. */
  function FilesWritten(t: seq<Effect>): set<OutputFile>
  {
    if |t| == 0 then {} else FileOf(t[0]) + FilesWritten(t[1..])
  }

  lemma {:induction false} FilesWrittenAppend(a: seq<Effect>, b: seq<Effect>)
    ensures FilesWritten(a + b) == FilesWritten(a) + FilesWritten(b)
  {
    if |a| > 0 {
      assert (a + b)[1..] == a[1..] + b;
      FilesWrittenAppend(a[1..], b);
    } else {
      assert a + b == b;
    }
  }

  lemma {:induction false} WritesCreateNoFile(symbol: string, lines: seq<string>)
    ensures FilesWritten(Writes(symbol, lines)) == {}
  {
    if |lines| > 0 {
      assert Writes(symbol, lines)[1..] == Writes(symbol, lines[1..]);
      WritesCreateNoFile(symbol, lines[1..]);
    }
  }

  lemma FilesOfSuccessfulRun(symbol: string, history: string, lines: seq<string>, complete: bool)
    ensures FilesWritten([OpenOptionsFile(symbol)] + Writes(symbol, lines) + Completion(symbol, history, complete)
                         + [CloseOptionsFile(symbol)])
         == {OptionsFile(symbol)} + (if complete then {PriceFile(symbol)} else {})
  {
    var open := [OpenOptionsFile(symbol)];
    var w := Writes(symbol, lines);
    var tail := Completion(symbol, history, complete);
    var close := [CloseOptionsFile(symbol)];
    WritesCreateNoFile(symbol, lines);
    FilesWrittenAppend(open, w);
    FilesWrittenAppend(open + w, tail);
    FilesWrittenAppend(open + w + tail, close);
    assert open[1..] == [] && close[1..] == [];
    if complete {
      assert tail[1..][1..] == [];
    }
  }

  /**
   * A run leaves no file when it was abandoned, the options file alone when a
   * per-date request failed, and both files when it completed.
   */
  lemma FilesOfRun(symbol: string, up: Upstream)
    ensures !Succeeded(up) ==> FilesWritten(Run(symbol, up)) == {}
    ensures Succeeded(up) && FirstFailure(up.replies) < |up.replies| ==>
      FilesWritten(Run(symbol, up)) == {OptionsFile(symbol)}
    ensures Succeeded(up) && FirstFailure(up.replies) == |up.replies| ==>
      FilesWritten(Run(symbol, up)) == {OptionsFile(symbol), PriceFile(symbol)}
  {
    RunClosedForm(symbol, up);
    if Succeeded(up) {
      var n := FirstFailure(up.replies);
      FilesOfSuccessfulRun(symbol, up.history, OptionsLines(up.replies[..n]), n == |up.replies|);
    }
  }

  /**
   * Every effect of a run names the run's own symbol. Two workers for the same
   * symbol (a symbol given twice as an argument) therefore share both files.
   */
  lemma EffectsOwnSymbol(symbol: string, up: Upstream)
    ensures forall e :: e in Run(symbol, up) ==> e.symbol == symbol
  {
  }

  // ---------------------------------------------------------------------------
  // What the options file says, read back line by line.
  // ---------------------------------------------------------------------------

  /** Each line reads back as the row at the same position. */
  ghost predicate ReadsAs(lines: seq<string>, rows: seq<OptionRow>)
  {
    |lines| == |rows| && forall i :: 0 <= i < |lines| ==> ParseLine(lines[i]) == Some(rows[i])
  }

  lemma ReadsAsAppend(a: seq<string>, ra: seq<OptionRow>, b: seq<string>, rb: seq<OptionRow>)
    requires ReadsAs(a, ra) && ReadsAs(b, rb)
    ensures ReadsAs(a + b, ra + rb)
  {
    forall i | 0 <= i < |a + b|
      ensures ParseLine((a + b)[i]) == Some((ra + rb)[i])
    {
      if i >= |a| {
        assert (a + b)[i] == b[i - |a|] && (ra + rb)[i] == rb[i - |a|];
      }
    }
  }

  function SideRows(side: Side, date: int, cs: seq<Contract>): (rows: seq<OptionRow>)
    ensures |rows| == |cs|
    ensures forall i :: 0 <= i < |cs| ==> rows[i] == OptionRow(side, date, cs[i])
  {
    seq(|cs|, i requires 0 <= i < |cs| => OptionRow(side, date, cs[i]))
  }

  /** The contracts of the given dates as rows: date after date, each date's puts before its calls. */
  function ChainRows(replies: seq<DateReply>): seq<OptionRow>
  {
    if |replies| == 0 then []
    else
      var ch := replies[0].chain;
      SideRows(Put, ch.date, ch.puts) + SideRows(Call, ch.date, ch.calls) + ChainRows(replies[1..])
  }

  predicate ChainCommaFree(ch: Chain)
  {
    (forall c :: c in ch.puts ==> CommaFree(c)) && (forall c :: c in ch.calls ==> CommaFree(c))
  }

  predicate AllCommaFree(replies: seq<DateReply>)
  {
    forall j :: 0 <= j < |replies| ==> ChainCommaFree(replies[j].chain)
  }

  /** Each options line reads back as the contract row at the same position. */
  lemma {:induction false} OptionsLinesRead(replies: seq<DateReply>)
    requires AllCommaFree(replies)
    ensures ReadsAs(OptionsLines(replies), ChainRows(replies))
  {
    if |replies| > 0 {
      var ch := replies[0].chain;
      assert ChainCommaFree(ch);
      assert AllCommaFree(replies[1..]) by {
        forall j | 0 <= j < |replies| - 1 ensures ChainCommaFree(replies[1..][j].chain) {
          assert replies[1..][j] == replies[j + 1];
        }
      }
      OptionsLinesRead(replies[1..]);
      ChainLinesRead(ch);
      var puts := SideRows(Put, ch.date, ch.puts);
      var calls := SideRows(Call, ch.date, ch.calls);
      var pl := SideLines(Put, ch.date, ch.puts);
      var cl := SideLines(Call, ch.date, ch.calls);
      assert ReadsAs(pl, puts) by {
        forall i | 0 <= i < |pl| ensures ParseLine(pl[i]) == Some(puts[i]) {
          assert pl[i] == ChainLines(ch)[i];
        }
      }
      assert ReadsAs(cl, calls) by {
        forall i | 0 <= i < |cl| ensures ParseLine(cl[i]) == Some(calls[i]) {
          assert cl[i] == ChainLines(ch)[|ch.puts| + i];
        }
      }
      ReadsAsAppend(pl, puts, cl, calls);
      ReadsAsAppend(pl + cl, puts + calls, OptionsLines(replies[1..]), ChainRows(replies[1..]));
    }
  }

  /**
   * The options file of a run, read back, lists the contracts of the dates
   * before the first failed request, in summary order, each date's puts before
   * its calls, one line per contract.
   */
  lemma OptionsFileContents(symbol: string, up: Upstream)
    requires Succeeded(up) && AllCommaFree(up.replies)
    ensures var lines := OptionsLines(up.replies[..FirstFailure(up.replies)]);
      && |lines| < |Run(symbol, up)|
      && (forall i :: 0 <= i < |lines| ==> Run(symbol, up)[i + 1] == WriteLine(symbol, lines[i]))
      && ReadsAs(lines, ChainRows(up.replies[..FirstFailure(up.replies)]))
  {
    var n := FirstFailure(up.replies);
    RunClosedForm(symbol, up);
    var tail := Completion(symbol, up.history, n == |up.replies|);
    WritesFollowOpen(symbol, OptionsLines(up.replies[..n]), tail + [CloseOptionsFile(symbol)]);
    assert [OpenOptionsFile(symbol)] + Writes(symbol, OptionsLines(up.replies[..n])) + tail + [CloseOptionsFile(symbol)]
        == [OpenOptionsFile(symbol)] + Writes(symbol, OptionsLines(up.replies[..n])) + (tail + [CloseOptionsFile(symbol)]);
    AllCommaFreePrefix(up.replies, n);
    OptionsLinesRead(up.replies[..n]);
  }

  lemma WritesFollowOpen(symbol: string, lines: seq<string>, tail: seq<Effect>)
    ensures var t := [OpenOptionsFile(symbol)] + Writes(symbol, lines) + tail;
      && |lines| < |t|
      && forall i :: 0 <= i < |lines| ==> t[i + 1] == WriteLine(symbol, lines[i])
  {
  }

  lemma AllCommaFreePrefix(replies: seq<DateReply>, n: nat)
    requires AllCommaFree(replies) && n <= |replies|
    ensures AllCommaFree(replies[..n])
  {
    forall j | 0 <= j < n ensures ChainCommaFree(replies[..n][j].chain) {
      assert replies[..n][j] == replies[j];
    }
  }
}
