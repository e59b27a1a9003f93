/** Training: the explore/exploit choice of an item, the epoch loop of
    `q_learning`, and a step-by-step reference definition of what that loop
    does to the table. The random source is an oracle: step n of training
    consumes `draws(n)`. */
module Training {
  import opened Labels
  import opened Ratings
  import opened QTable

  datatype Config = Config(learningRate: real, discountFactor: real, explorationRate: real)

  /** The random numbers of one step: `u` for `random.uniform(0, 1)`, and
      `pick`, of which `random.choice` takes element `pick % n` of an
      n-element universe. */
  datatype Draw = Draw(u: real, pick: nat)

  /** The table after some steps, whether the steps ran without error, and the
      (user, item) cell that each successful step updated, in order. */
  datatype Progress = Progress(table: Table, status: Status, trace: seq<(int, int)>)

  /** The users in the order training visits them: `epochs` passes over the
      user universe. */
  function Schedule(users: seq<int>, epochs: nat): seq<int> {
    if epochs == 0 then [] else Schedule(users, epochs - 1) + users
  }

  /** Training runs exactly epochs * |users| steps. */
  lemma {:induction false} ScheduleLength(users: seq<int>, epochs: nat)
    ensures |Schedule(users, epochs)| == epochs * |users|
  {
    if epochs > 0 {
      ScheduleLength(users, epochs - 1);
    }
  }

  lemma {:induction false} ScheduleIsPrefix(users: seq<int>, e: nat, epochs: nat)
    requires e <= epochs
    ensures Schedule(users, e) <= Schedule(users, epochs)
  {
    if e < epochs {
      ScheduleIsPrefix(users, e, epochs - 1);
    }
  }

  /** Pass e + 1 of the schedule is the first e passes followed by `users`. */
  lemma SchedulePass(users: seq<int>, e: nat)
    ensures |Schedule(users, e + 1)| == |Schedule(users, e)| + |users|
    ensures Schedule(users, e + 1)[..|Schedule(users, e)|] == Schedule(users, e)
    ensures Schedule(users, e + 1)[|Schedule(users, e)|..] == users
  {
  }

  /** (q * n + r) % n == r for 0 <= r < n. */
  lemma ModOfMultiplePlus(q: nat, n: nat, r: nat)
    requires r < n
    ensures (q * n + r) % n == r
  {
    var a := q * n + r;
    var d := a / n - q;
    assert n * d == r - a % n;
  }

  /** Step n of training visits user number n mod |users| of the universe. */
  lemma {:induction false} ScheduleAt(users: seq<int>, epochs: nat, n: nat)
    requires n < epochs * |users|
    ensures n < |Schedule(users, epochs)| && Schedule(users, epochs)[n] == users[n % |users|]
  {
    var before := Schedule(users, epochs - 1);
    ScheduleLength(users, epochs - 1);
    if n < |before| {
      ScheduleAt(users, epochs - 1, n);
    } else {
      ModOfMultiplePlus(epochs - 1, |users|, n - |before|);
    }
  }

  /** The policy: explore (`u < explorationRate`) takes the picked element of
      `items`, which fails as `random.choice` does on an empty universe;
      exploit takes the row arg-max of the table, which fails as
      `recommend_item` does. */
  function ChooseItem(t: Table, items: seq<int>, cfg: Config, user: int, d: Draw): (r: Result<int>)
    requires t.Valid()
    ensures d.u < cfg.explorationRate ==>
              (r.Ok? <==> |items| > 0) && (r.Ok? ==> r.value in items) && (r.Err? ==> r.error == EmptyChoice)
    ensures !(d.u < cfg.explorationRate) ==>
              (r.Ok? <==> user in t.users && |t.items| > 0) && (r.Ok? ==> r.value in t.items)
    ensures !(d.u < cfg.explorationRate) && user !in t.users ==> r == Err(KeyError)
    ensures !(d.u < cfg.explorationRate) && user in t.users && |t.items| == 0 ==> r == Err(EmptyRow)
  {
    if d.u < cfg.explorationRate then
      if |items| == 0 then Err(EmptyChoice) else Ok(items[d.pick % |items|])
    else RecommendItem(t, user)
  }

  /** On exploit the chosen item is the label of the first column of the
      user's row holding the row maximum, as `idxmax` picks it. */
  lemma ChooseItemExploitIsFirstMax(t: Table, items: seq<int>, cfg: Config, user: int, d: Draw)
    requires t.Valid()
    ensures var r := ChooseItem(t, items, cfg, user, d);
            !(d.u < cfg.explorationRate) && r.Ok? ==>
              exists k :: IsFirstMax(t.cells[IndexOf(t.users, user).value], k) && r.value == t.items[k]
  {
    if !(d.u < cfg.explorationRate) && user in t.users && |t.items| > 0 {
      var row := t.cells[IndexOf(t.users, user).value];
      assert IsFirstMax(row, ArgMax(row));
    }
  }

  /** One step of the inner loop for `user`: choose an item (exploring over
      `items`), look up its reward, update the cell. A failure leaves the
      table as it was. */
  function Step(p: Progress, obs: seq<Observation>, items: seq<int>, cfg: Config, user: int, d: Draw): (r: Progress)
    requires p.status == Pass && p.table.Valid()
    ensures r.table.Valid() && r.table.users == p.table.users && r.table.items == p.table.items
  {
    match ChooseItem(p.table, items, cfg, user, d)
    case Err(e) => Progress(p.table, Fail(e), p.trace)
    case Ok(item) =>
      match Update(p.table, user, item, GetRating(obs, user, item), cfg.learningRate, cfg.discountFactor)
      case Err(e) => Progress(p.table, Fail(e), p.trace)
      case Ok(t) => Progress(t, Pass, p.trace + [(user, item)])
  }

  /** Reference definition of training: the first n steps of `steps`, in
      order, step k visiting user `steps[k]` with `draws(k)`; after the first
      failure nothing more happens. */
  function RunFor(t0: Table, obs: seq<Observation>, items: seq<int>, cfg: Config, steps: seq<int>, n: nat,
                  draws: nat -> Draw): (p: Progress)
    requires t0.Valid() && n <= |steps|
    ensures p.table.Valid() && p.table.users == t0.users && p.table.items == t0.items
    decreases n, 0
  {
    if n == 0 then Progress(t0, Pass, []) else Advance(t0, obs, items, cfg, steps, n - 1, draws)
  }

  /** The progress after step k: that of the steps before it if one of them
      failed, otherwise step k taken on it. */
  function Advance(t0: Table, obs: seq<Observation>, items: seq<int>, cfg: Config, steps: seq<int>, k: nat,
                   draws: nat -> Draw): (p: Progress)
    requires t0.Valid() && k < |steps|
    ensures p.table.Valid() && p.table.users == t0.users && p.table.items == t0.items
    decreases k, 2
  {
    if RunFor(t0, obs, items, cfg, steps, k, draws).status.Fail? then RunFor(t0, obs, items, cfg, steps, k, draws)
    else StepAt(t0, obs, items, cfg, steps, k, draws)
  }

  /** Step k, for user `steps[k]` with `draws(k)`, taken on the progress of
      the steps before it. */
  function StepAt(t0: Table, obs: seq<Observation>, items: seq<int>, cfg: Config, steps: seq<int>, k: nat,
                  draws: nat -> Draw): (p: Progress)
    requires t0.Valid() && k < |steps| && RunFor(t0, obs, items, cfg, steps, k, draws).status == Pass
    ensures p.table.Valid() && p.table.users == t0.users && p.table.items == t0.items
    decreases k, 1
  {
    Step(RunFor(t0, obs, items, cfg, steps, k, draws), obs, items, cfg, steps[k], draws(k))
  }

  /** Step k of the run is one `Step` on the progress before it, unless that
      has already failed. */
  lemma RunForNext(t0: Table, obs: seq<Observation>, items: seq<int>, cfg: Config, steps: seq<int>, k: nat,
                   draws: nat -> Draw)
    requires t0.Valid() && k < |steps|
    ensures var p := RunFor(t0, obs, items, cfg, steps, k, draws);
            RunFor(t0, obs, items, cfg, steps, k + 1, draws)
            == if p.status.Fail? then p else Step(p, obs, items, cfg, steps[k], draws(k))
  {
    assert RunFor(t0, obs, items, cfg, steps, k + 1, draws) == Advance(t0, obs, items, cfg, steps, k, draws);
  }

  /** Training over all of `steps`. */
  function Run(t0: Table, obs: seq<Observation>, items: seq<int>, cfg: Config, steps: seq<int>,
               draws: nat -> Draw): Progress
    requires t0.Valid()
  {
    RunFor(t0, obs, items, cfg, steps, |steps|, draws)
  }

  /** The first n steps depend only on the first n users visited. */
  lemma {:induction false} RunForPrefix(t0: Table, obs: seq<Observation>, items: seq<int>, cfg: Config,
                                        steps: seq<int>, other: seq<int>, n: nat, draws: nat -> Draw)
    requires t0.Valid() && n <= |steps| && n <= |other| && steps[..n] == other[..n]
    ensures RunFor(t0, obs, items, cfg, steps, n, draws) == RunFor(t0, obs, items, cfg, other, n, draws)
  {
    if n > 0 {
      assert steps[n - 1] == steps[..n][n - 1] == other[..n][n - 1] == other[n - 1];
      assert steps[..n - 1] == steps[..n][..n - 1] == other[..n][..n - 1] == other[..n - 1];
      RunForPrefix(t0, obs, items, cfg, steps, other, n - 1, draws);
      RunForNext(t0, obs, items, cfg, steps, n - 1, draws);
      RunForNext(t0, obs, items, cfg, other, n - 1, draws);
    }
  }

  /** Once a step has failed, later steps do not change the outcome. */
  lemma {:induction false} RunAbsorbsFailure(t0: Table, obs: seq<Observation>, items: seq<int>, cfg: Config,
                                             steps: seq<int>, n: nat, m: nat, draws: nat -> Draw)
    requires t0.Valid() && n <= m <= |steps| && RunFor(t0, obs, items, cfg, steps, n, draws).status.Fail?
    ensures RunFor(t0, obs, items, cfg, steps, m, draws) == RunFor(t0, obs, items, cfg, steps, n, draws)
  {
    if n < m {
      RunAbsorbsFailure(t0, obs, items, cfg, steps, n, m - 1, draws);
      RunForNext(t0, obs, items, cfg, steps, m - 1, draws);
    }
  }

  /** Once pass e has failed, training to any later epoch count ends the same way. */
  lemma ScheduleAbsorbsFailure(t0: Table, obs: seq<Observation>, items: seq<int>, cfg: Config, users: seq<int>,
                               e: nat, epochs: nat, draws: nat -> Draw)
    requires t0.Valid() && e <= epochs && Run(t0, obs, items, cfg, Schedule(users, e), draws).status.Fail?
    ensures Run(t0, obs, items, cfg, Schedule(users, epochs), draws) == Run(t0, obs, items, cfg, Schedule(users, e), draws)
  {
    ScheduleIsPrefix(users, e, epochs);
    var done, all := Schedule(users, e), Schedule(users, epochs);
    assert all[..|done|] == done == done[..|done|];
    RunForPrefix(t0, obs, items, cfg, all, done, |done|, draws);
    RunAbsorbsFailure(t0, obs, items, cfg, all, |done|, |all|, draws);
  }

  /** With zero epochs the table is returned unchanged. */
  lemma ZeroEpochsUnchanged(t0: Table, obs: seq<Observation>, cfg: Config, draws: nat -> Draw)
    requires t0.Valid()
    ensures Run(t0, obs, Items(obs), cfg, Schedule(Users(obs), 0), draws) == Progress(t0, Pass, [])
  {
  }

  /** One step keeps a non-negative table non-negative when ratings are
      non-negative, 0 < learningRate <= 1 and discountFactor >= 0. */
  lemma StepNonNegative(p: Progress, obs: seq<Observation>, items: seq<int>, cfg: Config, user: int, d: Draw)
    requires p.status == Pass && p.table.Valid() && NonNegative(p.table)
    requires forall k :: 0 <= k < |obs| ==> obs[k].rating >= 0.0
    requires 0.0 < cfg.learningRate <= 1.0 && cfg.discountFactor >= 0.0
    ensures NonNegative(Step(p, obs, items, cfg, user, d).table)
  {
    var choice := ChooseItem(p.table, items, cfg, user, d);
    if choice.Ok? {
      var item := choice.value;
      GetRatingNonNegative(obs, user, item);
      var rating := GetRating(obs, user, item);
      if Update(p.table, user, item, rating, cfg.learningRate, cfg.discountFactor).Ok? {
        UpdateNonNegative(p.table, user, item, rating, cfg.learningRate, cfg.discountFactor);
      }
    }
  }

  /** Training keeps a non-negative table non-negative under the same conditions. */
  lemma {:induction false} RunNonNegative(t0: Table, obs: seq<Observation>, items: seq<int>, cfg: Config,
                                          steps: seq<int>, n: nat, draws: nat -> Draw)
    requires t0.Valid() && n <= |steps|
    requires NonNegative(t0) && forall k :: 0 <= k < |obs| ==> obs[k].rating >= 0.0
    requires 0.0 < cfg.learningRate <= 1.0 && cfg.discountFactor >= 0.0
    ensures NonNegative(RunFor(t0, obs, items, cfg, steps, n, draws).table)
  {
    if n > 0 {
      var p := RunFor(t0, obs, items, cfg, steps, n - 1, draws);
      RunNonNegative(t0, obs, items, cfg, steps, n - 1, draws);
      RunForNext(t0, obs, items, cfg, steps, n - 1, draws);
      if p.status == Pass {
        StepNonNegative(p, obs, items, cfg, steps[n - 1], draws(n - 1));
      }
    }
  }

  /** Training that starts, as `main` does, from the all-zero table over the
      data's universes leaves every cell non-negative. */
  lemma TrainingFromZeroNonNegative(obs: seq<Observation>, cfg: Config, epochs: nat, draws: nat -> Draw)
    requires forall k :: 0 <= k < |obs| ==> obs[k].rating >= 0.0
    requires 0.0 < cfg.learningRate <= 1.0 && cfg.discountFactor >= 0.0
    ensures var t0 := InitialTable(Users(obs), Items(obs));
            NonNegative(Run(t0, obs, Items(obs), cfg, Schedule(Users(obs), epochs), draws).table)
  {
    var t0 := InitialTable(Users(obs), Items(obs));
    var steps := Schedule(Users(obs), epochs);
    InitialTableNonNegative(Users(obs), Items(obs));
    RunNonNegative(t0, obs, Items(obs), cfg, steps, |steps|, draws);
  }

  /** One step for a user the table labels, exploring over a non-empty
      universe of items the table labels, on a table with at least one item,
      updates one cell of that user's row. */
  lemma StepCoveredSucceeds(p: Progress, obs: seq<Observation>, items: seq<int>, cfg: Config, user: int, d: Draw)
    requires p.status == Pass && p.table.Valid() && |items| > 0
    requires user in p.table.users && forall i :: i in items ==> i in p.table.items
    ensures var r := Step(p, obs, items, cfg, user, d);
            r.status == Pass && |r.trace| == |p.trace| + 1 && r.trace[..|p.trace|] == p.trace &&
            r.trace[|p.trace|].0 == user && r.trace[|p.trace|].1 in p.table.items
  {
    var first := items[0];
    assert first in items;
    assert first in p.table.items;
    var choice := ChooseItem(p.table, items, cfg, user, d);
    assert choice.Ok?;
    var item := choice.value;
    if d.u < cfg.explorationRate {
      assert item in items;
    }
    assert item in p.table.items;
    var u := Update(p.table, user, item, GetRating(obs, user, item), cfg.learningRate, cfg.discountFactor);
    assert u.Ok?;
    assert Step(p, obs, items, cfg, user, d) == Progress(u.value, Pass, p.trace + [(user, item)]);
  }

  /** On a table that labels every visited user and every item explored over,
      no step fails: each updates the cell of its own user and of an item of
      the table, one update per step. */
  lemma {:induction false} RunCoveredSucceeds(t0: Table, obs: seq<Observation>, items: seq<int>, cfg: Config,
                                              steps: seq<int>, n: nat, draws: nat -> Draw)
    requires t0.Valid() && n <= |steps| && (n == 0 || |items| > 0)
    requires forall i :: i in items ==> i in t0.items
    requires forall k :: 0 <= k < n ==> steps[k] in t0.users
    ensures var p := RunFor(t0, obs, items, cfg, steps, n, draws);
            p.status == Pass && |p.trace| == n &&
            forall k :: 0 <= k < n ==> p.trace[k].0 == steps[k] && p.trace[k].1 in t0.items
  {
    if n > 0 {
      RunCoveredSucceeds(t0, obs, items, cfg, steps, n - 1, draws);
      var p := RunFor(t0, obs, items, cfg, steps, n - 1, draws);
      var r := Step(p, obs, items, cfg, steps[n - 1], draws(n - 1));
      StepCoveredSucceeds(p, obs, items, cfg, steps[n - 1], draws(n - 1));
      RunForNext(t0, obs, items, cfg, steps, n - 1, draws);
      assert RunFor(t0, obs, items, cfg, steps, n, draws) == r;
      forall k | 0 <= k < n
        ensures r.trace[k].0 == steps[k] && r.trace[k].1 in t0.items
      {
        if k < n - 1 {
          assert r.trace[k] == r.trace[..|p.trace|][k] == p.trace[k];
        }
      }
    }
  }

  /** With no observations both universes are empty and training visits no
      user, whatever the epoch count. */
  lemma EmptyDataNoSteps(obs: seq<Observation>, epochs: nat)
    requires |obs| == 0
    ensures Schedule(Users(obs), epochs) == []
  {
    UniversesEmptyTogether(obs);
    ScheduleLength(Users(obs), epochs);
  }

  /** The table covers the data: every user and item of the observations
      labels a row or a column of `t`. */
  predicate Covers(t: Table, obs: seq<Observation>) {
    (forall u :: u in Users(obs) ==> u in t.users) &&
    (forall i :: i in Items(obs) ==> i in t.items)
  }

  /** `q_learning` on a table that covers its data performs exactly
      epochs * |users| updates, step n on user number n mod |users| of the
      user universe in first-appearance order. */
  lemma TrainingUpdateCount(t0: Table, obs: seq<Observation>, cfg: Config, epochs: nat, draws: nat -> Draw)
    requires t0.Valid() && Covers(t0, obs)
    ensures var p := Run(t0, obs, Items(obs), cfg, Schedule(Users(obs), epochs), draws);
            p.status == Pass && |p.trace| == epochs * |Users(obs)| &&
            forall n :: 0 <= n < |p.trace| ==> p.trace[n].0 == Users(obs)[n % |Users(obs)|]
  {
    var users := Users(obs);
    var steps := Schedule(users, epochs);
    ScheduleLength(users, epochs);
    UniversesEmptyTogether(obs);
    forall k | 0 <= k < |steps|
      ensures steps[k] == users[k % |users|] && steps[k] in t0.users
    {
      ScheduleAt(users, epochs, k);
    }
    RunCoveredSucceeds(t0, obs, Items(obs), cfg, steps, |steps|, draws);
  }

  /** The body of the inner loop of `q_learning` for one user: choose an
      item with draw `d`, look up its rating, update the table in place. It
      does to the table what `Step` does to the progress `p` so far. */
  method VisitUser(obs: seq<Observation>, items: seq<int>, table: MutableTable, cfg: Config, user: int, d: Draw,
                   ghost p: Progress)
    returns (status: Status)
    requires table.Valid() && p.status == Pass && p.table == table.contents
    modifies table, table.q
    ensures table.Valid()
    ensures var r := Step(p, obs, items, cfg, user, d);
            table.contents == r.table && status == r.status
  {
    var item;
    if d.u < cfg.explorationRate {
      if |items| == 0 {
        return Fail(EmptyChoice);
      }
      item := items[d.pick % |items|];
    } else {
      var ui := IndexOf(table.users, user);
      if ui.None? {
        return Fail(KeyError);
      } else if |table.items| == 0 {
        return Fail(EmptyRow);
      }
      item := table.items[ArgMax(table.Row(ui.value))];
    }
    assert ChooseItem(table.contents, items, cfg, user, d) == Ok(item);
    var rating := GetRating(obs, user, item);
    status := table.UpdateQValue(user, item, rating, cfg.learningRate, cfg.discountFactor);
  }

  /** Step n of `steps`, taken on the table in place: afterwards table and
      status are those `RunFor` gives for the first n + 1 steps, and once it
      has failed, for all of `steps`. */
  method VisitStep(obs: seq<Observation>, items: seq<int>, table: MutableTable, cfg: Config, user: int,
                   draws: nat -> Draw, n: nat, ghost t0: Table, ghost steps: seq<int>)
    returns (status: Status)
    requires table.Valid() && t0.Valid() && n < |steps| && steps[n] == user
    requires RunFor(t0, obs, items, cfg, steps, n, draws).status == Pass
    requires RunFor(t0, obs, items, cfg, steps, n, draws).table == table.contents
    modifies table, table.q
    ensures table.Valid()
    ensures var r := RunFor(t0, obs, items, cfg, steps, n + 1, draws);
            table.contents == r.table && status == r.status
    ensures status.Fail? ==> Run(t0, obs, items, cfg, steps, draws) == RunFor(t0, obs, items, cfg, steps, n + 1, draws)
  {
    RunForNext(t0, obs, items, cfg, steps, n, draws);
    status := VisitUser(obs, items, table, cfg, user, draws(n), RunFor(t0, obs, items, cfg, steps, n, draws));
    if status.Fail? {
      RunAbsorbsFailure(t0, obs, items, cfg, steps, n + 1, |steps|, draws);
    }
  }

  /** One pass of the epoch loop of `q_learning`: visit `users` in order,
      they being the last steps of `steps`, after the first `start` steps,
      stopping at the first failure. Afterwards table and status are those
      `Run` gives for all of `steps`. */
  method TrainPass(obs: seq<Observation>, items: seq<int>, table: MutableTable, cfg: Config, users: seq<int>,
                   draws: nat -> Draw, start: nat, ghost t0: Table, ghost steps: seq<int>)
    returns (status: Status)
    requires table.Valid() && t0.Valid()
    requires start + |users| == |steps| && steps[start..] == users
    requires RunFor(t0, obs, items, cfg, steps, start, draws).status == Pass
    requires RunFor(t0, obs, items, cfg, steps, start, draws).table == table.contents
    modifies table, table.q
    ensures table.Valid()
    ensures var r := Run(t0, obs, items, cfg, steps, draws);
            table.contents == r.table && status == r.status
  {
    ghost var p := RunFor(t0, obs, items, cfg, steps, start, draws);
    var n := start;
    for k := 0 to |users|
      invariant table.Valid() && n == start + k
      invariant p == RunFor(t0, obs, items, cfg, steps, n, draws)
      invariant p.status == Pass && p.table == table.contents
    {
      assert steps[n] == steps[start..][k];
      status := VisitStep(obs, items, table, cfg, users[k], draws, n, t0, steps);
      n := n + 1;
      p := RunFor(t0, obs, items, cfg, steps, n, draws);
      if status.Fail? {
        return;
      }
    }
    status := Pass;
  }

  /** The epoch loop of `q_learning` over given universes: `epochs` passes,
      each visiting every user of `users` once in order; a failure stops
      training with the updates made so far left in the table. */
  method TrainEpochs(obs: seq<Observation>, users: seq<int>, items: seq<int>, table: MutableTable, cfg: Config,
                     epochs: nat, draws: nat -> Draw)
    returns (status: Status)
    requires table.Valid()
    modifies table, table.q
    ensures table.Valid()
    ensures var p := Run(old(table.contents), obs, items, cfg, Schedule(users, epochs), draws);
            table.contents == p.table && status == p.status
  {
    ghost var t0 := table.contents;
    ghost var p := Run(t0, obs, items, cfg, Schedule(users, 0), draws);
    var n := 0;
    for e := 0 to epochs
      invariant table.Valid() && n == |Schedule(users, e)|
      invariant p == Run(t0, obs, items, cfg, Schedule(users, e), draws)
      invariant p.status == Pass && p.table == table.contents
    {
      SchedulePass(users, e);
      RunForPrefix(t0, obs, items, cfg, Schedule(users, e + 1), Schedule(users, e), n, draws);
      status := TrainPass(obs, items, table, cfg, users, draws, n, t0, Schedule(users, e + 1));
      n := n + |users|;
      p := Run(t0, obs, items, cfg, Schedule(users, e + 1), draws);
      if status.Fail? {
        ScheduleAbsorbsFailure(t0, obs, items, cfg, users, e + 1, epochs, draws);
        return;
      }
    }
    status := Pass;
  }

  /** `q_learning`: training over the user and item universes of the data,
      users visited in first-appearance order and exploration drawing from
      the item universe. */
  method QLearning(obs: seq<Observation>, table: MutableTable, cfg: Config, epochs: nat, draws: nat -> Draw)
    returns (status: Status)
    requires table.Valid()
    modifies table, table.q
    ensures table.Valid()
    ensures var p := Run(old(table.contents), obs, Items(obs), cfg, Schedule(Users(obs), epochs), draws);
            table.contents == p.table && status == p.status
  {
    var users, items := Users(obs), Items(obs);
    status := TrainEpochs(obs, users, items, table, cfg, epochs, draws);
  }
}
