/** The dataset writes of `create_hdf5` (tecplot_tools/hdf.py:59-70): which
    `create_dataset` calls are issued, in which order, under which keys, and
    from which part of which array. The file itself is not modelled; a write
    is the record of one call. */
module Layout {
  import opened Outcomes
  import opened Arrays
  import opened Decimal
  import opened Text

  /** One `create_dataset` call: the key, the variable whose data is stored,
      the time index taken along the time axis (None when the whole array is
      stored) and the shape of what is stored. */
  datatype Dataset = Dataset(key: string, variable: string, slice: Option<nat>, shape: seq<nat>)

  /** The key `f'Z{it}/{vname}'` of a transient write. */
  function GroupKey(it: nat, name: string): string {
    "Z" + NatToString(it) + "/" + name
  }

  /** Different steps or different names give different keys, so no
      transient write overwrites another when the names are distinct. */
  lemma {:induction false} GroupKeyInjective(i: nat, a: string, j: nat, b: string)
    requires GroupKey(i, a) == GroupKey(j, b)
    ensures i == j && a == b
  {
    var di, dj := NatToString(i), NatToString(j);
    var k := GroupKey(i, a);
    assert k[1..] == di + ("/" + a) == dj + ("/" + b);
    assert '/' !in di && '/' !in dj;
    SplitAtFirst(di, a, dj, b, '/');
    NatToStringInjective(i, j);
  }

  /** Two strings that each hold `c` after a `c`-free part agree in both
      parts when they are equal. */
  lemma {:induction false} SplitAtFirst(x: string, a: string, y: string, b: string, c: char)
    requires c !in x && c !in y && x + ([c] + a) == y + ([c] + b)
    ensures x == y && a == b
  {
    var s := x + ([c] + a);
    FindConcat(x, [c] + a, c);
    FindConcat(y, [c] + b, c);
    assert |x| == |y|;
    assert x == s[..|x|] == y;
    assert a == s[|x| + 1..] == b;
  }

  /** `np.take(data, it, axis)`'s shape: the shape without that axis. */
  function RemoveAxis(shape: seq<nat>, axis: nat): (r: seq<nat>)
    requires axis < |shape|
    ensures |r| == |shape| - 1
    ensures forall k :: 0 <= k < axis ==> r[k] == shape[k]
    ensures forall k :: axis <= k < |r| ==> r[k] == shape[k + 1]
  {
    shape[..axis] + shape[axis + 1..]
  }

  /** The write for variable `v` in step `it` (lines 63-67): a 4-D variable
      is sliced at `it` along the time axis, anything else is stored whole. */
  function TransientAttempt(v: Var, axis: nat, it: nat): Result<Dataset>
    requires axis < 4
  {
    if v.Rank() == 4 then
      if it < v.shape[axis] then Ok(Dataset(GroupKey(it, v.name), v.name, Some(it), RemoveAxis(v.shape, axis)))
      else Err(TimeIndexOutOfRange(v.name, it))
    else Ok(Dataset(GroupKey(it, v.name), v.name, None, v.shape))
  }

  /** The write for variable `v` of static data (line 70). */
  function StaticAttempt(v: Var): Result<Dataset> {
    if v.Rank() == 0 then Err(ZeroRankSlice(v.name)) else Ok(Dataset(v.name, v.name, None, v.shape))
  }

  /** The writes of step `it`, one per variable in mapping order. */
  function StepAttempts(vars: seq<Var>, axis: nat, it: nat): seq<Result<Dataset>>
    requires axis < 4
  {
    seq(|vars|, j requires 0 <= j < |vars| => TransientAttempt(vars[j], axis, it))
  }

  /** The writes of the first `nt` steps, step after step. */
  function TransientAttempts(vars: seq<Var>, axis: nat, nt: nat): seq<Result<Dataset>>
    requires axis < 4
  {
    if nt == 0 then [] else TransientAttempts(vars, axis, nt - 1) + StepAttempts(vars, axis, nt - 1)
  }

  /** `nt` steps of `|vars|` writes each. */
  lemma {:induction false} TransientAttemptsLength(vars: seq<Var>, axis: nat, nt: nat)
    requires axis < 4
    ensures |TransientAttempts(vars, axis, nt)| == nt * |vars|
  {
    if nt > 0 {
      TransientAttemptsLength(vars, axis, nt - 1);
      assert nt * |vars| == (nt - 1) * |vars| + |vars|;
    }
  }

  /** The static writes, one per variable in mapping order. */
  function StaticAttempts(vars: seq<Var>): seq<Result<Dataset>> {
    seq(|vars|, j requires 0 <= j < |vars| => StaticAttempt(vars[j]))
  }

  /** Every write the nested loops at lines 60-70 try, in order; `nt` is
      ignored for static data. */
  function Attempts(vars: seq<Var>, taxis: Option<int>, nt: nat): seq<Result<Dataset>>
    requires taxis.Some? ==> ValidAxis(taxis.value, 4)
  {
    if taxis.None? then StaticAttempts(vars) else TransientAttempts(vars, NormalizeAxis(taxis.value, 4), nt)
  }

  predicate AllOk(attempts: seq<Result<Dataset>>) {
    forall i :: 0 <= i < |attempts| ==> attempts[i].Ok?
  }

  /** The datasets of a run of successful writes. */
  function Values(attempts: seq<Result<Dataset>>): seq<Dataset>
    requires AllOk(attempts)
  {
    seq(|attempts|, i requires 0 <= i < |attempts| => attempts[i].value)
  }

  /** The writes that reached the file, and the exception, if any, that
      ended the write phase. */
  datatype WriteOutcome = WriteOutcome(written: seq<Dataset>, failure: Option<Error>)

  /** Running the attempted writes in order: the first error ends the phase
      and what was written before it stays in the file. */
  function Execute(attempts: seq<Result<Dataset>>): WriteOutcome {
    if attempts == [] then WriteOutcome([], None)
    else match attempts[0]
      case Err(e) => WriteOutcome([], Some(e))
      case Ok(d) =>
        var rest := Execute(attempts[1..]);
        WriteOutcome([d] + rest.written, rest.failure)
  }

  /** What reaches the file is the longest prefix of successful writes, and
      the phase fails exactly when some write fails, with the first error. */
  lemma {:induction false} ExecuteWritesOkPrefix(attempts: seq<Result<Dataset>>)
    ensures var w := Execute(attempts);
      && |w.written| <= |attempts|
      && AllOk(attempts[..|w.written|]) && w.written == Values(attempts[..|w.written|])
      && (w.failure.None? <==> |w.written| == |attempts|)
      && (w.failure.Some? ==> attempts[|w.written|] == Err(w.failure.value))
  {
    if attempts != [] && attempts[0].Ok? {
      var rest := Execute(attempts[1..]);
      ExecuteWritesOkPrefix(attempts[1..]);
      assert attempts[..1 + |rest.written|] == [attempts[0]] + attempts[1..][..|rest.written|];
    }
  }

  lemma {:induction false} ExecuteAllOk(attempts: seq<Result<Dataset>>)
    requires AllOk(attempts)
    ensures Execute(attempts) == WriteOutcome(Values(attempts), None)
  {
    if attempts != [] {
      assert attempts[0].Ok?;
      ExecuteAllOk(attempts[1..]);
      assert Values(attempts) == [attempts[0].value] + Values(attempts[1..]);
    }
  }

  lemma {:induction false} ExecuteStopsAt(attempts: seq<Result<Dataset>>, k: nat)
    requires k < |attempts| && AllOk(attempts[..k]) && attempts[k].Err?
    ensures Execute(attempts) == WriteOutcome(Values(attempts[..k]), Some(attempts[k].error))
  {
    if k > 0 {
      assert attempts[..k][0] == attempts[0];
      assert attempts[1..][..k - 1] == attempts[..k][1..];
      ExecuteStopsAt(attempts[1..], k - 1);
      assert Values(attempts[..k]) == [attempts[0].value] + Values(attempts[1..][..k - 1]);
    }
  }

  /** The first `m` steps are a prefix of the first `nt`. */
  lemma {:induction false} TransientAttemptsExtend(vars: seq<Var>, axis: nat, m: nat, nt: nat)
    returns (rest: seq<Result<Dataset>>)
    requires axis < 4 && m <= nt
    ensures TransientAttempts(vars, axis, nt) == TransientAttempts(vars, axis, m) + rest
    decreases nt
  {
    if m == nt {
      rest := [];
    } else {
      var r := TransientAttemptsExtend(vars, axis, m, nt - 1);
      rest := r + StepAttempts(vars, axis, nt - 1);
    }
  }

  /** Where the write of variable `j` of step `it` sits, with `n` writes
      per step (step-major order). */
  function Position(it: nat, n: nat, j: nat): nat {
    it * n + j
  }

  /** Position `it * n + j` of step `it` lies before step `m` when `it < m`. */
  lemma {:induction false} StepIndexBefore(it: nat, m: nat, n: nat, j: nat)
    requires it < m && j < n
    ensures it * n + j < m * n
  {
    assert (it + 1) * n == it * n + n;
    assert (it + 1) * n <= m * n;
  }

  lemma {:induction false} ConcatAt<T>(a: seq<T>, b: seq<T>, p: nat)
    requires p < |a| + |b|
    ensures (a + b)[p] == if p < |a| then a[p] else b[p - |a|]
  {
  }

  /** Step-major order: the write at position `it * |vars| + j` is that of
      variable `j` in step `it`. */
  lemma {:induction false} TransientAttemptAt(vars: seq<Var>, axis: nat, nt: nat, it: nat, j: nat)
    requires axis < 4 && it < nt && j < |vars|
    ensures Position(it, |vars|, j) < |TransientAttempts(vars, axis, nt)|
    ensures TransientAttempts(vars, axis, nt)[Position(it, |vars|, j)] == TransientAttempt(vars[j], axis, it)
    decreases nt
  {
    var n := |vars|;
    var p := Position(it, n, j);
    var a := TransientAttempts(vars, axis, nt - 1);
    var step := StepAttempts(vars, axis, nt - 1);
    TransientAttemptsLength(vars, axis, nt - 1);
    assert TransientAttempts(vars, axis, nt) == a + step;
    if it < nt - 1 {
      StepIndexBefore(it, nt - 1, n, j);
      TransientAttemptAt(vars, axis, nt - 1, it, j);
      ConcatAt(a, step, p);
    } else {
      assert p == |a| + j;
      ConcatAt(a, step, p);
    }
  }

  /** Every 4-D variable has at least `nt` steps along the time axis; only a
      4-D variable with fewer can fail a transient write. */
  predicate CoversSteps(vars: seq<Var>, axis: nat, nt: nat)
    requires axis < 4
  {
    forall j :: 0 <= j < |vars| && vars[j].Rank() == 4 ==> nt <= vars[j].shape[axis]
  }

  lemma {:induction false} TransientAttemptsSucceed(vars: seq<Var>, axis: nat, m: nat, nt: nat)
    requires axis < 4 && m <= nt && CoversSteps(vars, axis, nt)
    ensures AllOk(TransientAttempts(vars, axis, m))
  {
    if m > 0 {
      TransientAttemptsSucceed(vars, axis, m - 1, nt);
      var a: seq<Result<Dataset>> := TransientAttempts(vars, axis, m - 1);
      var step: seq<Result<Dataset>> := StepAttempts(vars, axis, m - 1);
      var both: seq<Result<Dataset>> := a + step;
      forall k | 0 <= k < |both| ensures both[k].Ok? {
        if k >= |a| {
          assert both[k] == step[k - |a|];
        }
      }
    }
  }

  /** Transient layout: when every 4-D variable has at least `nt` steps,
      exactly `nt * |vars|` writes are issued, step-major; the write for
      variable `j` in step `it` goes to `Z{it}/{name}`, and a variable is
      sliced at `it` exactly when its rank is 4; any other variable is stored
      whole in every group. */
  lemma {:induction false} TransientLayout(vars: seq<Var>, axis: nat, nt: nat, it: nat, j: nat)
    requires axis < 4 && CoversSteps(vars, axis, nt) && it < nt && j < |vars|
    ensures var w := Execute(TransientAttempts(vars, axis, nt));
      && w.failure.None?
      && |w.written| == nt * |vars|
      && Position(it, |vars|, j) < |w.written|
      && var d := w.written[Position(it, |vars|, j)];
      && d.key == GroupKey(it, vars[j].name)
      && d.variable == vars[j].name
      && (d.slice.Some? <==> vars[j].Rank() == 4)
      && (d.slice.Some? ==> d.slice.value == it && d.shape == RemoveAxis(vars[j].shape, axis))
      && (d.slice.None? ==> d.shape == vars[j].shape)
  {
    var a := TransientAttempts(vars, axis, nt);
    TransientAttemptsLength(vars, axis, nt);
    TransientAttemptsSucceed(vars, axis, nt, nt);
    ExecuteAllOk(a);
    TransientAttemptAt(vars, axis, nt, it, j);
  }

  /** The transient writes all succeed exactly when every 4-D variable has
      at least `nt` steps along the time axis. */
  lemma {:induction false} TransientSucceedsIffCovers(vars: seq<Var>, axis: nat, nt: nat)
    requires axis < 4
    ensures Execute(TransientAttempts(vars, axis, nt)).failure.None? <==> CoversSteps(vars, axis, nt)
  {
    var a := TransientAttempts(vars, axis, nt);
    if CoversSteps(vars, axis, nt) {
      TransientAttemptsSucceed(vars, axis, nt, nt);
      ExecuteAllOk(a);
    } else {
      var j :| 0 <= j < |vars| && vars[j].Rank() == 4 && nt > vars[j].shape[axis];
      var it := vars[j].shape[axis];
      TransientAttemptAt(vars, axis, nt, it, j);
      ExecuteWritesOkPrefix(a);
    }
  }

  /** Static layout: with no 0-d variable, one write per variable in
      mapping order, keyed by the name and holding the whole array. */
  lemma {:induction false} StaticLayout(vars: seq<Var>)
    requires forall j :: 0 <= j < |vars| ==> vars[j].Rank() > 0
    ensures Execute(StaticAttempts(vars)) ==
      WriteOutcome(seq(|vars|, j requires 0 <= j < |vars| => Dataset(vars[j].name, vars[j].name, None, vars[j].shape)), None)
  {
    ExecuteAllOk(StaticAttempts(vars));
  }

  /** Static data with a 0-d variable: the variables before the first such
      one are written, then `data[:]` fails on it. */
  lemma {:induction false} StaticZeroRank(vars: seq<Var>, k: nat)
    requires k < |vars| && vars[k].Rank() == 0
    requires forall j :: 0 <= j < k ==> vars[j].Rank() > 0
    ensures Execute(StaticAttempts(vars)).failure == Some(ZeroRankSlice(vars[k].name))
    ensures |Execute(StaticAttempts(vars)).written| == k
  {
    ExecuteStopsAt(StaticAttempts(vars), k);
  }

  /** The static writes all succeed exactly when no variable is 0-d. */
  lemma {:induction false} StaticSucceedsIffNoScalar(vars: seq<Var>)
    ensures Execute(StaticAttempts(vars)).failure.None? <==> forall j :: 0 <= j < |vars| ==> vars[j].Rank() > 0
  {
    var a := StaticAttempts(vars);
    ExecuteWritesOkPrefix(a);
    if Execute(a).failure.None? {
      assert a[..|a|] == a;
      forall j | 0 <= j < |vars| ensures vars[j].Rank() > 0 {
        assert a[j].Ok?;
      }
    } else if forall j :: 0 <= j < |vars| ==> vars[j].Rank() > 0 {
      StaticLayout(vars);
    }
  }

  /** Execution runs on past writes that succeed. */
  lemma {:induction false} ExecuteAfterOk(a: seq<Result<Dataset>>, b: seq<Result<Dataset>>)
    requires AllOk(a)
    ensures Execute(a + b) == WriteOutcome(Values(a) + Execute(b).written, Execute(b).failure)
  {
    if a != [] {
      assert (a + b)[1..] == a[1..] + b;
      ExecuteAfterOk(a[1..], b);
      assert Values(a) == [a[0].value] + Values(a[1..]);
    } else {
      assert a + b == b;
    }
  }

  /** Nothing after the first failure is executed. */
  lemma {:induction false} ExecuteAfterFailure(a: seq<Result<Dataset>>, b: seq<Result<Dataset>>)
    requires Execute(a).failure.Some?
    ensures Execute(a + b) == Execute(a)
  {
    ExecuteWritesOkPrefix(a);
    var k := |Execute(a).written|;
    assert (a + b)[..k] == a[..k];
    ExecuteStopsAt(a + b, k);
  }

  /** One pass of the inner loop at lines 62-67: the writes of step `it`,
      appended to those already made. */
  method WriteStep(vars: seq<Var>, axis: nat, it: nat, written: seq<Dataset>) returns (w: WriteOutcome)
    requires axis < 4
    ensures w == WriteOutcome(written + Execute(StepAttempts(vars, axis, it)).written,
                              Execute(StepAttempts(vars, axis, it)).failure)
  {
    ghost var step := StepAttempts(vars, axis, it);
    var out := written;
    var j := 0;
    while j < |vars|
      invariant j <= |vars|
      invariant AllOk(step[..j]) && out == written + Values(step[..j])
    {
      var v := vars[j];
      if v.Rank() == 4 {
        if it >= v.shape[axis] {
          ExecuteStopsAt(step, j);
          return WriteOutcome(out, Some(TimeIndexOutOfRange(v.name, it)));
        }
        out := out + [Dataset(GroupKey(it, v.name), v.name, Some(it), RemoveAxis(v.shape, axis))];
      } else {
        out := out + [Dataset(GroupKey(it, v.name), v.name, None, v.shape)];
      }
      assert step[..j + 1] == step[..j] + [step[j]];
      j := j + 1;
    }
    assert step[..|vars|] == step;
    ExecuteAllOk(step);
    w := WriteOutcome(out, None);
  }

  lemma {:induction false} TransientAttemptsAfterStep(vars: seq<Var>, axis: nat, it: nat, nt: nat)
    returns (rest: seq<Result<Dataset>>)
    requires axis < 4 && it < nt
    ensures TransientAttempts(vars, axis, nt) ==
      TransientAttempts(vars, axis, it) + (StepAttempts(vars, axis, it) + rest)
  {
    rest := TransientAttemptsExtend(vars, axis, it + 1, nt);
  }

  /** A step that fails ends the execution of all `nt` steps. */
  lemma {:induction false} TransientStepFails(vars: seq<Var>, axis: nat, it: nat, nt: nat)
    requires axis < 4 && it < nt && AllOk(TransientAttempts(vars, axis, it))
    requires Execute(StepAttempts(vars, axis, it)).failure.Some?
    ensures Execute(TransientAttempts(vars, axis, nt)) ==
      WriteOutcome(Values(TransientAttempts(vars, axis, it)) + Execute(StepAttempts(vars, axis, it)).written,
                   Execute(StepAttempts(vars, axis, it)).failure)
  {
    var done := TransientAttempts(vars, axis, it);
    var step := StepAttempts(vars, axis, it);
    var rest := TransientAttemptsAfterStep(vars, axis, it, nt);
    ExecuteAfterOk(done, step + rest);
    ExecuteAfterFailure(step, rest);
  }

  /** A step that succeeds extends the successful prefix. */
  lemma {:induction false} TransientStepSucceeds(vars: seq<Var>, axis: nat, it: nat)
    requires axis < 4 && AllOk(TransientAttempts(vars, axis, it))
    requires Execute(StepAttempts(vars, axis, it)).failure.None?
    ensures AllOk(TransientAttempts(vars, axis, it + 1))
    ensures Values(TransientAttempts(vars, axis, it + 1)) ==
      Values(TransientAttempts(vars, axis, it)) + Execute(StepAttempts(vars, axis, it)).written
  {
    var done := TransientAttempts(vars, axis, it);
    var step := StepAttempts(vars, axis, it);
    ExecuteWritesOkPrefix(step);
    assert step[..|step|] == step;
    ExecuteAllOk(step);
    assert TransientAttempts(vars, axis, it + 1) == done + step;
    assert Values(done + step) == Values(done) + Values(step);
  }

  /** The loop over steps at lines 60-67. */
  method WriteTransient(vars: seq<Var>, axis: nat, nt: nat) returns (w: WriteOutcome)
    requires axis < 4
    ensures w == Execute(TransientAttempts(vars, axis, nt))
  {
    var written: seq<Dataset> := [];
    var it := 0;
    while it < nt
      invariant it <= nt
      invariant AllOk(TransientAttempts(vars, axis, it))
      invariant written == Values(TransientAttempts(vars, axis, it))
    {
      var r := WriteStep(vars, axis, it, written);
      if r.failure.Some? {
        TransientStepFails(vars, axis, it, nt);
        return r;
      }
      TransientStepSucceeds(vars, axis, it);
      written := r.written;
      it := it + 1;
    }
    ExecuteAllOk(TransientAttempts(vars, axis, nt));
    w := WriteOutcome(written, None);
  }

  /** The loop over variables at lines 69-70. */
  method WriteStatic(vars: seq<Var>) returns (w: WriteOutcome)
    ensures w == Execute(StaticAttempts(vars))
  {
    var written: seq<Dataset> := [];
    ghost var all := StaticAttempts(vars);
    var j := 0;
    while j < |vars|
      invariant j <= |vars|
      invariant AllOk(all[..j]) && written == Values(all[..j])
    {
      var v := vars[j];
      if v.Rank() == 0 {
        ExecuteStopsAt(all, j);
        return WriteOutcome(written, Some(ZeroRankSlice(v.name)));
      }
      written := written + [Dataset(v.name, v.name, None, v.shape)];
      assert all[..j + 1] == all[..j] + [all[j]];
      j := j + 1;
    }
    assert all[..|vars|] == all;
    ExecuteAllOk(all);
    w := WriteOutcome(written, None);
  }

  /** The write phase at lines 59-70; a 4-D slice uses the time axis as
      numpy normalises it for a 4-D array. */
  method WriteDatasets(vars: seq<Var>, taxis: Option<int>, nt: nat) returns (w: WriteOutcome)
    requires taxis.Some? ==> ValidAxis(taxis.value, 4)
    ensures w == Execute(Attempts(vars, taxis, nt))
  {
    if taxis.Some? {
      w := WriteTransient(vars, NormalizeAxis(taxis.value, 4), nt);
    } else {
      w := WriteStatic(vars);
    }
  }
}
