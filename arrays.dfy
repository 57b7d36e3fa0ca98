/** What the exporter knows of an array: its name in the variable mapping
    and its shape (numpy's `ndim` is the length of the shape). The rank rule
    and the choice of the step count `nt` (tecplot_tools/hdf.py:43-54). */
module Arrays {
  import opened Outcomes

  datatype Var = Var(name: string, shape: seq<nat>) {
    function Rank(): nat {
      |shape|
    }
  }

  /** `np.max(all_rank)` over a non-empty variable list (line 44). */
  function MaxRank(vars: seq<Var>): (r: nat)
    requires |vars| > 0
    ensures forall i :: 0 <= i < |vars| ==> vars[i].Rank() <= r
    ensures exists i :: 0 <= i < |vars| && vars[i].Rank() == r
  {
    if |vars| == 1 then vars[0].Rank()
    else
      var rest := MaxRank(vars[1..]);
      assert forall i :: 1 <= i < |vars| ==> vars[i] == vars[1..][i - 1];
      if vars[0].Rank() >= rest then vars[0].Rank() else rest
  }

  /** Python accepts an index `t` into a tuple of length `n` iff `-n <= t < n`. */
  predicate ValidAxis(taxis: int, rank: nat) {
    -(rank as int) <= taxis < rank
  }

  /** The position a Python index `taxis` denotes in a sequence of length `rank`. */
  function NormalizeAxis(taxis: int, rank: nat): (a: nat)
    requires ValidAxis(taxis, rank)
    ensures a < rank
    ensures a == taxis || a == taxis + rank
  {
    if taxis < 0 then taxis + rank else taxis
  }

  /** The last position whose variable has the given rank. */
  function LastOfRank(vars: seq<Var>, rank: nat): (j: nat)
    requires exists i :: 0 <= i < |vars| && vars[i].Rank() == rank
    ensures j < |vars| && vars[j].Rank() == rank
    ensures forall k :: j < k < |vars| ==> vars[k].Rank() != rank
  {
    var n := |vars| - 1;
    if vars[n].Rank() == rank then n
    else
      assert exists i :: 0 <= i < n && vars[..n][i].Rank() == rank;
      LastOfRank(vars[..n], rank)
  }

  /** The value `nt` holds after the loop at lines 47-50: nothing (it stays
      unbound) for static data; otherwise the extent along `taxis` of the
      last variable of maximum rank, or the IndexError of indexing that shape. */
  function StepCount(vars: seq<Var>, taxis: Option<int>): Result<Option<nat>>
    requires |vars| > 0
  {
    var top := MaxRank(vars);
    if taxis.None? then Ok(None)
    else if !ValidAxis(taxis.value, top) then Err(TimeAxisOutOfRange(taxis.value))
    else Ok(Some(Steps(vars, taxis.value)))
  }

  /** The step count of transient data: the extent along the time axis of
      the last variable, in mapping order, of maximum rank. */
  function Steps(vars: seq<Var>, taxis: int): nat
    requires |vars| > 0 && ValidAxis(taxis, MaxRank(vars))
  {
    vars[LastOfRank(vars, MaxRank(vars))].shape[NormalizeAxis(taxis, MaxRank(vars))]
  }

  /** The loop at lines 47-50: every variable of maximum rank overwrites
      `nt` with its extent along the time axis. */
  method SelectSteps(vars: seq<Var>, maxRank: nat, taxis: Option<int>) returns (r: Result<Option<nat>>)
    requires |vars| > 0 && maxRank == MaxRank(vars)
    ensures r == StepCount(vars, taxis)
    ensures r.Err? <==> taxis.Some? && !ValidAxis(taxis.value, maxRank)
    ensures r.Ok? && taxis.Some? ==>
      (exists j :: 0 <= j < |vars| && vars[j].Rank() == maxRank &&
        r.value == Some(vars[j].shape[NormalizeAxis(taxis.value, maxRank)]) &&
        forall k :: j < k < |vars| ==> vars[k].Rank() < maxRank)
  {
    var nt: Option<nat> := None;
    ghost var last := -1;
    var i := 0;
    while i < |vars|
      invariant 0 <= i <= |vars| && -1 <= last < i
      invariant taxis.None? ==> nt.None?
      invariant last >= 0 ==> vars[last].Rank() == maxRank
      invariant forall k :: last < k < i ==> vars[k].Rank() != maxRank
      invariant taxis.Some? ==> (nt.None? <==> last < 0)
      invariant taxis.Some? && last >= 0 ==>
        (ValidAxis(taxis.value, maxRank) && nt == Some(vars[last].shape[NormalizeAxis(taxis.value, maxRank)]))
    {
      var v := vars[i];
      if v.Rank() == maxRank {
        if taxis.Some? {
          if !ValidAxis(taxis.value, maxRank) {
            return Err(TimeAxisOutOfRange(taxis.value));
          }
          nt := Some(v.shape[NormalizeAxis(taxis.value, maxRank)]);
        }
        last := i;
      }
      i := i + 1;
    }
    if taxis.Some? {
      assert last == LastOfRank(vars, maxRank);
    }
    r := Ok(nt);
  }
}
