/**
 * The run reducer of `rollTraitSkill`: it folds the host's exploding-die results into
 * run totals. Within a term, each counted die adds to a running total and every die
 * that did not explode closes the run; the total restarts at every term.
 */
module Runs {
  import opened Wrappers
  import opened JsValues

  /** One entry of a dice term's `results`: the stored face after `Number(...)` (None when null or undefined) and its explosion flag. */
  datatype DieResult = DieResult(result: Option<Number>, exploded: bool)

  /** One term of `roll.dice`; `results` is None when the term has none. */
  datatype DiceTerm = DiceTerm(results: Option<seq<DieResult>>)

  /** The value a result adds to the running total: null, undefined and non-finite results are skipped. */
  function Face(d: DieResult): Option<int> {
    match d.result
    case Some(Finite(v)) => Some(v)
    case _ => None
  }

  function ResultsOf(t: DiceTerm): seq<DieResult> {
    t.results.GetOr([])
  }

  /** The runs one term emits from the running total `open` onwards (the specification of the inner loop). */
  function TermRuns(rs: seq<DieResult>, open: int): seq<int>
    decreases |rs|
  {
    if rs == [] then (if open > 0 then [open] else [])
    else
      match Face(rs[0])
      case None => TermRuns(rs[1..], open)
      case Some(v) => if rs[0].exploded then TermRuns(rs[1..], open + v) else [open + v] + TermRuns(rs[1..], 0)
  }

  /** The runs of every term, in term order. */
  function AllRuns(terms: seq<DiceTerm>): seq<int> {
    if terms == [] then [] else TermRuns(ResultsOf(terms[0]), 0) + AllRuns(terms[1..])
  }

  /** `diceResults` once the reducer is done: the runs, or `[0]` when there are none. */
  function DiceResults(terms: seq<DiceTerm>): seq<int> {
    var runs := AllRuns(terms);
    if runs == [] then [0] else runs
  }

  /** The sum of the counted faces of a term. */
  function CountedSum(rs: seq<DieResult>): int {
    if rs == [] then 0 else Face(rs[0]).GetOr(0) + CountedSum(rs[1..])
  }

  /** The number of counted results that did not explode. */
  function Closes(rs: seq<DieResult>): nat {
    if rs == [] then 0 else (if Face(rs[0]).Some? && !rs[0].exploded then 1 else 0) + Closes(rs[1..])
  }

  /** The running total left open at the end of a term. */
  function OpenTotal(rs: seq<DieResult>, open: int): int
    decreases |rs|
  {
    if rs == [] then open
    else
      match Face(rs[0])
      case None => OpenTotal(rs[1..], open)
      case Some(v) => if rs[0].exploded then OpenTotal(rs[1..], open + v) else OpenTotal(rs[1..], 0)
  }

  function Sum(s: seq<int>): int {
    if s == [] then 0 else s[0] + Sum(s[1..])
  }

  function TotalCounted(terms: seq<DiceTerm>): int {
    if terms == [] then 0 else CountedSum(ResultsOf(terms[0])) + TotalCounted(terms[1..])
  }

  predicate NoneCounted(terms: seq<DiceTerm>) {
    forall i, j :: 0 <= i < |terms| && 0 <= j < |ResultsOf(terms[i])| ==> Face(ResultsOf(terms[i])[j]).None?
  }

  predicate NonNegativeFaces(terms: seq<DiceTerm>) {
    forall i, j :: 0 <= i < |terms| && 0 <= j < |ResultsOf(terms[i])| ==> Face(ResultsOf(terms[i])[j]).GetOr(0) >= 0
  }

  /** Every entry of `rs` is skipped or exploded: a chain that no result closes. */
  predicate OpenChain(rs: seq<DieResult>) {
    forall i :: 0 <= i < |rs| ==> Face(rs[i]).None? || rs[i].exploded
  }

  /** The reducer: nested loops over terms and results, as in the source. */
  method CollectRuns(terms: seq<DiceTerm>) returns (diceResults: seq<int>)
    ensures diceResults == DiceResults(terms)
  {
    diceResults := [];
    var i := 0;
    while i < |terms|
      invariant 0 <= i <= |terms|
      invariant diceResults == AllRuns(terms[..i])
    {
      var term := terms[i];
      if term.results.Some? {
        var rs := term.results.value;
        ghost var before := diceResults;
        var runningTotal := 0;
        var j := 0;
        while j < |rs|
          invariant 0 <= j <= |rs|
          invariant diceResults + TermRuns(rs[j..], runningTotal) == before + TermRuns(rs, 0)
        {
          var result := rs[j];
          assert rs[j..][0] == result && rs[j..][1..] == rs[j + 1..];
          if result.result.Some? && result.result.value.IsFinite() {
            var value := result.result.value.value;
            runningTotal := runningTotal + value;
            if !result.exploded {
              diceResults := diceResults + [runningTotal];
              runningTotal := 0;
            }
          }
          j := j + 1;
        }
        assert rs[j..] == [];
        if runningTotal > 0 {
          diceResults := diceResults + [runningTotal];
        }
        assert diceResults == before + TermRuns(rs, 0);
      }
      assert diceResults == AllRuns(terms[..i]) + TermRuns(ResultsOf(terms[i]), 0);
      assert [terms[i]][1..] == [];
      AllRunsAppend(terms[..i], [terms[i]]);
      assert terms[..i + 1] == terms[..i] + [terms[i]];
      i := i + 1;
    }
    assert terms[..|terms|] == terms;
    if |diceResults| == 0 {
      diceResults := diceResults + [0];
    }
  }

  /** Runs never carry over from one term to the next: the runs of a roll are those of its parts, in order. */
  lemma {:induction false} AllRunsAppend(a: seq<DiceTerm>, b: seq<DiceTerm>)
    ensures AllRuns(a + b) == AllRuns(a) + AllRuns(b)
  {
    if a != [] {
      assert (a + b)[0] == a[0] && (a + b)[1..] == a[1..] + b;
      AllRunsAppend(a[1..], b);
    } else {
      assert a + b == b;
    }
  }

  /** A result that did not explode closes exactly one run: itself plus the exploded results since the last close. */
  lemma {:induction false} ClosedChainRun(chain: seq<DieResult>, closer: DieResult, rest: seq<DieResult>, open: int)
    requires OpenChain(chain)
    requires Face(closer).Some? && !closer.exploded
    ensures TermRuns(chain + [closer] + rest, open) == [open + CountedSum(chain) + Face(closer).value] + TermRuns(rest, 0)
  {
    if chain == [] {
      assert ([closer] + rest)[1..] == rest;
    } else {
      var s := chain + [closer] + rest;
      assert s[0] == chain[0] && s[1..] == chain[1..] + [closer] + rest;
      ClosedChainRun(chain[1..], closer, rest, open + Face(chain[0]).GetOr(0));
    }
  }

  /** A chain left open at the end of a term is emitted only when its total is positive. */
  lemma {:induction false} OpenChainRun(chain: seq<DieResult>, open: int)
    requires OpenChain(chain)
    ensures TermRuns(chain, open) == if open + CountedSum(chain) > 0 then [open + CountedSum(chain)] else []
  {
    if chain != [] {
      OpenChainRun(chain[1..], open + Face(chain[0]).GetOr(0));
    }
  }

  /** Null and non-finite results leave the runs unchanged wherever they occur. */
  lemma {:induction false} SkippedResultIgnored(a: seq<DieResult>, d: DieResult, b: seq<DieResult>, open: int)
    requires Face(d).None?
    ensures TermRuns(a + [d] + b, open) == TermRuns(a + b, open)
  {
    if a == [] {
      assert a + [d] + b == [d] + b && a + b == b;
      assert ([d] + b)[1..] == b;
    } else {
      assert (a + [d] + b)[0] == a[0] && (a + [d] + b)[1..] == a[1..] + [d] + b;
      assert (a + b)[0] == a[0] && (a + b)[1..] == a[1..] + b;
      match Face(a[0])
      case None => SkippedResultIgnored(a[1..], d, b, open);
      case Some(v) =>
        if a[0].exploded {
          SkippedResultIgnored(a[1..], d, b, open + v);
        } else {
          SkippedResultIgnored(a[1..], d, b, 0);
        }
    }
  }

  /** One run per closing result, plus one for a positive total left open. */
  lemma {:induction false} TermRunsCount(rs: seq<DieResult>, open: int)
    ensures |TermRuns(rs, open)| == Closes(rs) + (if OpenTotal(rs, open) > 0 then 1 else 0)
  {
    if rs != [] {
      match Face(rs[0])
      case None => TermRunsCount(rs[1..], open);
      case Some(v) =>
        if rs[0].exploded {
          TermRunsCount(rs[1..], open + v);
        } else {
          TermRunsCount(rs[1..], 0);
        }
    }
  }

  /** With non-negative faces, a term's runs add up to its open total plus all its counted faces. */
  lemma {:induction false} TermRunsSum(rs: seq<DieResult>, open: int)
    requires open >= 0
    requires forall i :: 0 <= i < |rs| ==> Face(rs[i]).GetOr(0) >= 0
    ensures Sum(TermRuns(rs, open)) == open + CountedSum(rs)
  {
    if rs != [] {
      match Face(rs[0])
      case None => TermRunsSum(rs[1..], open);
      case Some(v) =>
        if rs[0].exploded {
          TermRunsSum(rs[1..], open + v);
        } else {
          TermRunsSum(rs[1..], 0);
        }
    }
  }

  lemma {:induction false} SumAppend(a: seq<int>, b: seq<int>)
    ensures Sum(a + b) == Sum(a) + Sum(b)
  {
    if a != [] {
      assert (a + b)[0] == a[0] && (a + b)[1..] == a[1..] + b;
      SumAppend(a[1..], b);
    } else {
      assert a + b == b;
    }
  }

  /** Conservation: with non-negative faces, the emitted runs add up to the sum of all counted results. */
  lemma {:induction false} RunsConserveTotal(terms: seq<DiceTerm>)
    requires NonNegativeFaces(terms)
    ensures Sum(DiceResults(terms)) == TotalCounted(terms)
  {
    AllRunsConserve(terms);
  }

  lemma {:induction false} AllRunsConserve(terms: seq<DiceTerm>)
    requires NonNegativeFaces(terms)
    ensures Sum(AllRuns(terms)) == TotalCounted(terms)
  {
    if terms != [] {
      var rs := ResultsOf(terms[0]);
      assert forall j :: 0 <= j < |rs| ==> Face(rs[j]).GetOr(0) >= 0 by {
        forall j | 0 <= j < |rs| ensures Face(rs[j]).GetOr(0) >= 0 {
          assert ResultsOf(terms[0])[j] == rs[j];
        }
      }
      TermRunsSum(rs, 0);
      assert NonNegativeFaces(terms[1..]) by {
        forall i, j | 0 <= i < |terms[1..]| && 0 <= j < |ResultsOf(terms[1..][i])|
          ensures Face(ResultsOf(terms[1..][i])[j]).GetOr(0) >= 0
        {
          assert terms[1..][i] == terms[i + 1];
        }
      }
      AllRunsConserve(terms[1..]);
      SumAppend(TermRuns(rs, 0), AllRuns(terms[1..]));
    }
  }

  lemma {:induction false} NoCountedNoTermRuns(rs: seq<DieResult>)
    requires forall j :: 0 <= j < |rs| ==> Face(rs[j]).None?
    ensures TermRuns(rs, 0) == []
  {
    if rs != [] {
      NoCountedNoTermRuns(rs[1..]);
    }
  }

  /** When no result was counted, the reducer emits exactly the sentinel `[0]`. */
  lemma {:induction false} NoneCountedGivesSentinel(terms: seq<DiceTerm>)
    requires NoneCounted(terms)
    ensures DiceResults(terms) == [0]
  {
    NoneCountedNoRuns(terms);
  }

  lemma {:induction false} NoneCountedNoRuns(terms: seq<DiceTerm>)
    requires NoneCounted(terms)
    ensures AllRuns(terms) == []
  {
    if terms != [] {
      var rs := ResultsOf(terms[0]);
      assert forall j :: 0 <= j < |rs| ==> Face(rs[j]).None? by {
        forall j | 0 <= j < |rs| ensures Face(rs[j]).None? {
          assert ResultsOf(terms[0])[j] == rs[j];
        }
      }
      NoCountedNoTermRuns(rs);
      assert NoneCounted(terms[1..]) by {
        forall i, j | 0 <= i < |terms[1..]| && 0 <= j < |ResultsOf(terms[1..][i])|
          ensures Face(ResultsOf(terms[1..][i])[j]).None?
        {
          assert terms[1..][i] == terms[i + 1];
        }
      }
      NoneCountedNoRuns(terms[1..]);
    }
  }

  /** Every counted face is positive, as it is for six-sided dice. */
  predicate PositiveFaces(terms: seq<DiceTerm>) {
    forall i, j :: 0 <= i < |terms| && 0 <= j < |ResultsOf(terms[i])| ==> Face(ResultsOf(terms[i])[j]).GetOr(1) > 0
  }

  /** With positive faces and a non-negative start, a term emits no run exactly when nothing is open and nothing is counted. */
  lemma {:induction false} TermRunsEmpty(rs: seq<DieResult>, open: int)
    requires open >= 0
    requires forall j :: 0 <= j < |rs| ==> Face(rs[j]).GetOr(1) > 0
    ensures TermRuns(rs, open) == [] <==> open == 0 && forall j :: 0 <= j < |rs| ==> Face(rs[j]).None?
  {
    if rs != [] {
      assert forall j :: 1 <= j < |rs| ==> rs[1..][j - 1] == rs[j];
      match Face(rs[0])
      case None =>
        TermRunsEmpty(rs[1..], open);
        assert (forall j :: 0 <= j < |rs| ==> Face(rs[j]).None?) <==> (forall j :: 0 <= j < |rs[1..]| ==> Face(rs[1..][j]).None?);
      case Some(v) =>
        if rs[0].exploded {
          TermRunsEmpty(rs[1..], open + v);
        }
    }
  }

  /** With positive faces, the reducer finds no run (and falls back to `[0]`) exactly when no result was counted. */
  lemma {:induction false} NoRunsIffNoneCounted(terms: seq<DiceTerm>)
    requires PositiveFaces(terms)
    ensures AllRuns(terms) == [] <==> NoneCounted(terms)
  {
    if terms != [] {
      PositiveFacesCons(terms);
      TermRunsEmpty(ResultsOf(terms[0]), 0);
      NoRunsIffNoneCounted(terms[1..]);
      NoneCountedCons(terms);
    }
  }

  lemma PositiveFacesCons(terms: seq<DiceTerm>)
    requires terms != [] && PositiveFaces(terms)
    ensures forall j :: 0 <= j < |ResultsOf(terms[0])| ==> Face(ResultsOf(terms[0])[j]).GetOr(1) > 0
    ensures PositiveFaces(terms[1..])
  {
    assert forall i :: 1 <= i < |terms| ==> terms[1..][i - 1] == terms[i];
  }

  lemma NoneCountedCons(terms: seq<DiceTerm>)
    requires terms != []
    ensures NoneCounted(terms) <==>
      (forall j :: 0 <= j < |ResultsOf(terms[0])| ==> Face(ResultsOf(terms[0])[j]).None?) && NoneCounted(terms[1..])
  {
    assert forall i :: 1 <= i < |terms| ==> terms[1..][i - 1] == terms[i];
  }

  /** `Math.max(...diceResults)`. */
  function Highest(runs: seq<int>): (h: int)
    requires runs != []
    ensures h in runs
    ensures forall r :: r in runs ==> r <= h
  {
    if |runs| == 1 then runs[0]
    else
      var rest := Highest(runs[1..]);
      assert forall r :: r in runs ==> r == runs[0] || r in runs[1..];
      if runs[0] >= rest then runs[0] else rest
  }
}
