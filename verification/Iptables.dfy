/** The iptables rule manager: check, append and delete commands against an ordered kernel
    chain, any of which can fail, with the process possibly stopped between two of them
    (internal/iptables/iptables.go). */
module Iptables {
  import opened Basics

  datatype Rule = Rule(table: string, chain: string, spec: seq<string>)

  function OwnerReturn(uid: int): (r: Rule) {
    Rule("nat", "OUTPUT", ["-m", "owner", "--uid-owner", Itoa(uid), "-j", "RETURN"])
  }

  function Redirect(dport: string, proxyPort: int): (r: Rule) {
    Rule("nat", "OUTPUT", ["-p", "tcp", "--dport", dport, "-j", "REDIRECT", "--to-port", Itoa(proxyPort)])
  }

  /** goper's rules: its own traffic leaves first, then web traffic is redirected. */
  function GoperRules(uid: int, proxyPort: int): (rules: seq<Rule>)
    ensures Distinct(rules)
  {
    var rules := [OwnerReturn(uid), Redirect("80", proxyPort), Redirect("443", proxyPort)];
    assert |rules[0].spec| == 6 && |rules[1].spec| == 8 && |rules[2].spec| == 8;
    assert |rules[1].spec[3]| == 2 && |rules[2].spec[3]| == 3;
    rules
  }

  // ---- Commands -----------------------------------------------------------

  datatype Command = Check(rule: Rule) | Add(rule: Rule) | Delete(rule: Rule)

  /** How the environment treats a command: carries it out truthfully, cannot start it at
      all, or lets it exit with an error of its own without doing anything. */
  datatype Outcome = Truthful | ExecFailure | ErrorExit

  datatype Exit = Ok | ExitError | ExecError

  function Reply(chain: seq<Rule>, cmd: Command, outcome: Outcome): (e: Exit) {
    match outcome
    case ExecFailure => ExecError
    case ErrorExit => ExitError
    case Truthful => if cmd.Add? || cmd.rule in chain then Ok else ExitError
  }

  function Effect(chain: seq<Rule>, cmd: Command, outcome: Outcome): (c: seq<Rule>) {
    if !outcome.Truthful? then chain
    else match cmd
         case Check(_) => chain
         case Add(r) => chain + [r]
         case Delete(r) => Without(chain, r)
  }

  class Kernel {
    var chain: seq<Rule>

    constructor (chain: seq<Rule>)
      ensures this.chain == chain
    {
      this.chain := chain;
    }

    method Run(cmd: Command, outcome: Outcome) returns (e: Exit)
      modifies this
      ensures chain == Effect(old(chain), cmd, outcome) && e == Reply(old(chain), cmd, outcome)
    {
      e := Reply(chain, cmd, outcome);
      chain := Effect(chain, cmd, outcome);
    }
  }

  // ---- Setup and Teardown -------------------------------------------------

  /** `Stopped` is the process being killed: the script of outcomes has run out. */
  datatype Status = Completed | Failed | Stopped

  datatype Progress = Progress(chain: seq<Rule>, status: Status, left: seq<Outcome>)

  /** Adds a rule unless the check says it exists. Only a check that could not run is an error;
      every other unsuccessful check reads as "absent". */
  function EnsureRule(chain: seq<Rule>, r: Rule, outs: seq<Outcome>): (p: Progress)
    ensures |p.left| <= |outs|
  {
    if outs == [] then Progress(chain, Stopped, [])
    else
      match Reply(chain, Check(r), outs[0])
      case ExecError => Progress(chain, Failed, outs[1..])
      case Ok => Progress(chain, Completed, outs[1..])
      case ExitError =>
        if |outs| == 1 then Progress(chain, Stopped, [])
        else Progress(Effect(chain, Add(r), outs[1]),
                      if Reply(chain, Add(r), outs[1]) == Ok then Completed else Failed, outs[2..])
  }

  function SetupRun(chain: seq<Rule>, rules: seq<Rule>, outs: seq<Outcome>): (p: Progress)
    decreases |rules|
  {
    if rules == [] then Progress(chain, Completed, outs)
    else
      var p := EnsureRule(chain, rules[0], outs);
      if p.status != Completed then p else SetupRun(p.chain, rules[1..], p.left)
  }

  /** Deletes every rule in turn, ignoring failures. */
  function TeardownRun(chain: seq<Rule>, rules: seq<Rule>, outs: seq<Outcome>): (c: seq<Rule>)
    decreases |rules|
  {
    if rules == [] || outs == [] then chain
    else TeardownRun(Effect(chain, Delete(rules[0]), outs[0]), rules[1..], outs[1..])
  }

  class Manager {
    const rules: seq<Rule>
    const runner: Kernel

    constructor (uid: int, proxyPort: int, runner: Kernel)
      ensures rules == GoperRules(uid, proxyPort) && this.runner == runner
    {
      rules := GoperRules(uid, proxyPort);
      this.runner := runner;
    }

    method Ensure(r: Rule, outs: seq<Outcome>) returns (status: Status, left: seq<Outcome>)
      modifies runner
      ensures Progress(runner.chain, status, left) == EnsureRule(old(runner.chain), r, outs)
    {
      if outs == [] {
        return Stopped, [];
      }
      var found := runner.Run(Check(r), outs[0]);
      if found == ExecError {
        return Failed, outs[1..];
      }
      if found == Ok {
        return Completed, outs[1..];
      }
      if |outs| == 1 {
        return Stopped, [];
      }
      var added := runner.Run(Add(r), outs[1]);
      return if added == Ok then Completed else Failed, outs[2..];
    }

    method Setup(outs: seq<Outcome>) returns (status: Status, left: seq<Outcome>)
      modifies runner
      ensures Progress(runner.chain, status, left) == SetupRun(old(runner.chain), rules, outs)
    {
      left := outs;
      for i := 0 to |rules|
        invariant SetupRun(old(runner.chain), rules, outs) == SetupRun(runner.chain, rules[i..], left)
      {
        assert rules[i..][1..] == rules[i + 1..];
        status, left := Ensure(rules[i], left);
        if status != Completed {
          return;
        }
      }
      status := Completed;
    }

    method Teardown(outs: seq<Outcome>)
      modifies runner
      ensures runner.chain == TeardownRun(old(runner.chain), rules, outs)
    {
      for i := 0 to |rules|
        invariant i <= |outs|
        invariant TeardownRun(old(runner.chain), rules, outs) == TeardownRun(runner.chain, rules[i..], outs[i..])
      {
        assert rules[i..][1..] == rules[i + 1..];
        if i == |outs| {
          return;
        }
        assert outs[i..][1..] == outs[i + 1..];
        var e := runner.Run(Delete(rules[i]), outs[i]);
        if e != Ok {
          continue;
        }
      }
    }
  }

  // ---- What Setup adds ----------------------------------------------------

  /** A check that exits with an error of its own although the rule is there: Setup takes the
      rule for absent. */
  predicate Misread(chain: seq<Rule>, r: Rule, outs: seq<Outcome>) {
    outs != [] && outs[0] == ErrorExit && r in chain
  }

  /** A rule is duplicated exactly when its check is misread and the append then works. */
  lemma DuplicatedExactly(chain: seq<Rule>, r: Rule, outs: seq<Outcome>)
    ensures r in chain && EnsureRule(chain, r, outs).chain != chain <==>
            Misread(chain, r, outs) && |outs| > 1 && outs[1] == Truthful
  {
    assert |chain + [r]| != |chain|;
  }

  /** No check made by this Setup is misread. */
  ghost predicate ChecksTruthful(chain: seq<Rule>, rules: seq<Rule>, outs: seq<Outcome>)
    decreases |rules|
  {
    rules == [] ||
    (!Misread(chain, rules[0], outs) &&
     var p := EnsureRule(chain, rules[0], outs);
     (p.status == Completed ==> ChecksTruthful(p.chain, rules[1..], p.left)))
  }

  /** The rules not yet in the chain, in their own order. */
  function Missing(chain: seq<Rule>, rules: seq<Rule>): (r: seq<Rule>) {
    if rules == [] then []
    else (if rules[0] in chain then [] else [rules[0]]) + Missing(chain, rules[1..])
  }

  lemma {:induction false} MissingElsewhere(chain: seq<Rule>, rules: seq<Rule>, r: Rule)
    requires r !in rules
    ensures Missing(chain + [r], rules) == Missing(chain, rules)
  {
    if rules == [] {
    } else {
      MissingElsewhere(chain, rules[1..], r);
    }
  }

  lemma EnsureAdds(chain: seq<Rule>, r: Rule, outs: seq<Outcome>)
    requires !Misread(chain, r, outs)
    ensures var p := EnsureRule(chain, r, outs);
            p.chain == if p.status == Completed && r !in chain then chain + [r] else chain
  {
  }

  /** What becomes of one rule: a check that runs and a working append bring it in, only a check that cannot
      run or an append that does not work is a failure, and a rule found needs one command. */
  lemma EnsureEnds(chain: seq<Rule>, r: Rule, outs: seq<Outcome>)
    ensures var p, found := EnsureRule(chain, r, outs), outs != [] && outs[0] == Truthful && r in chain;
            && (p.status == Completed <==>
                found || (|outs| > 1 && outs[0] != ExecFailure && outs[1] == Truthful))
            && (p.status == Failed <==>
                outs != [] && !found && (outs[0] == ExecFailure || (|outs| > 1 && outs[1] != Truthful)))
            && (p.status == Completed ==> r in p.chain && p.left == outs[if found then 1 else 2..])
  {
  }

  /** Setup takes the rules in order and ends as the first of them that does not come to a good end does:
      rules before it were ensured, rules behind it are not touched. */
  lemma {:induction false} SetupStopsAtFirst(chain: seq<Rule>, rules: seq<Rule>, outs: seq<Outcome>) returns (i: nat)
    ensures i <= |rules| && SetupRun(chain, rules[..i], outs).status == Completed
    ensures var p := SetupRun(chain, rules[..i], outs);
            if i == |rules| then SetupRun(chain, rules, outs) == p
            else SetupRun(chain, rules, outs) == EnsureRule(p.chain, rules[i], p.left)
                 && SetupRun(chain, rules, outs).status != Completed
    decreases |rules|
  {
    hide EnsureRule;
    if rules == [] {
      i := 0;
    } else {
      var p := EnsureRule(chain, rules[0], outs);
      if p.status == Completed {
        i := SetupStopsAtFirst(p.chain, rules[1..], p.left);
        assert rules[..i + 1][1..] == rules[1..][..i];
        i := i + 1;
        assert i == |rules| ==> rules[..i] == rules;
      } else {
        i := 0;
        assert rules[..0] == [];
      }
    }
  }

  /** All commands of the script work. */
  predicate AllWork(outs: seq<Outcome>) {
    forall i :: 0 <= i < |outs| ==> outs[i] == Truthful
  }

  /** A Setup whose commands all work completes on every chain, with a check for each rule and an append for
      each missing one, and it leaves every rule in place. */
  lemma {:induction false} WorkingSetupCompletes(chain: seq<Rule>, rules: seq<Rule>, outs: seq<Outcome>)
    requires Distinct(rules) && AllWork(outs) && |outs| >= |rules| + |Missing(chain, rules)|
    ensures SetupRun(chain, rules, outs) ==
            Progress(chain + Missing(chain, rules), Completed, outs[|rules| + |Missing(chain, rules)|..])
    decreases |rules|
  {
    if rules == [] {
      assert chain + [] == chain;
    } else {
      var p, rest := EnsureRule(chain, rules[0], outs), rules[1..];
      assert rules[0] !in rest && Distinct(rest);
      EnsureEnds(chain, rules[0], outs);
      EnsureAdds(chain, rules[0], outs);
      if rules[0] in chain {
        assert Missing(chain, rules) == Missing(chain, rest);
        WorkingSetupCompletes(chain, rest, outs[1..]);
        assert outs[1..][|rest| + |Missing(chain, rest)|..] == outs[|rules| + |Missing(chain, rules)|..];
      } else {
        MissingElsewhere(chain, rest, rules[0]);
        WorkingSetupCompletes(p.chain, rest, outs[2..]);
        assert chain + [rules[0]] + Missing(chain, rest) == chain + Missing(chain, rules);
        assert outs[2..][|rest| + |Missing(chain, rest)|..] == outs[|rules| + |Missing(chain, rules)|..];
      }
    }
  }

  /** Stopped or failing anywhere, Setup has appended the first j missing rules in order; if it
      completed, all of them. */
  lemma {:induction false} SetupAppends(chain: seq<Rule>, rules: seq<Rule>, outs: seq<Outcome>) returns (j: nat)
    requires Distinct(rules) && ChecksTruthful(chain, rules, outs)
    ensures j <= |Missing(chain, rules)|
    ensures SetupRun(chain, rules, outs).chain == chain + Missing(chain, rules)[..j]
    ensures SetupRun(chain, rules, outs).status == Completed ==> j == |Missing(chain, rules)|
    decreases |rules|
  {
    hide EnsureRule, Misread;
    j := 0;
    if rules == [] {
    } else {
      var p := EnsureRule(chain, rules[0], outs);
      EnsureAdds(chain, rules[0], outs);
      if p.status == Completed {
        assert rules[0] !in rules[1..] && Distinct(rules[1..]);
        j := SetupAppends(p.chain, rules[1..], p.left);
        assert SetupRun(chain, rules, outs) == SetupRun(p.chain, rules[1..], p.left);
        if rules[0] in chain {
          assert Missing(chain, rules) == Missing(chain, rules[1..]);
        } else {
          MissingElsewhere(chain, rules[1..], rules[0]);
          OneMoreAdded(chain, rules[0], Missing(chain, rules[1..]), j);
          j := j + 1;
        }
      }
    }
  }

  lemma OneMoreAdded(chain: seq<Rule>, r: Rule, rest: seq<Rule>, j: nat)
    requires j <= |rest|
    ensures (chain + [r]) + rest[..j] == chain + ([r] + rest)[..j + 1]
  {
  }

  /** A second Setup finds nothing to do. */
  lemma SetupIdempotent(chain: seq<Rule>, rules: seq<Rule>, outs: seq<Outcome>, again: seq<Outcome>)
    requires Distinct(rules) && ChecksTruthful(chain, rules, outs)
    requires SetupRun(chain, rules, outs).status == Completed
    requires ChecksTruthful(SetupRun(chain, rules, outs).chain, rules, again)
    ensures SetupRun(SetupRun(chain, rules, outs).chain, rules, again).chain == SetupRun(chain, rules, outs).chain
  {
    var j := SetupAppends(chain, rules, outs);
    var full := SetupRun(chain, rules, outs).chain;
    assert full == chain + Missing(chain, rules);
    MissingMembers(chain, rules);
    NothingMissing(full, rules);
    var k := SetupAppends(full, rules, again);
  }

  lemma {:induction false} MissingMembers(chain: seq<Rule>, rules: seq<Rule>)
    ensures forall r :: r in Missing(chain, rules) <==> r in rules && r !in chain
  {
    if rules == [] {
    } else {
      MissingMembers(chain, rules[1..]);
    }
  }

  lemma {:induction false} NothingMissing(chain: seq<Rule>, rules: seq<Rule>)
    requires forall r :: r in rules ==> r in chain
    ensures Missing(chain, rules) == []
  {
    if rules == [] {
    } else {
      assert rules[0] in rules;
      NothingMissing(chain, rules[1..]);
    }
  }

  // ---- goper's rules among others -----------------------------------------

  /** goper's part of a chain, or everybody else's. */
  function Part(chain: seq<Rule>, rules: seq<Rule>, ours: bool): (c: seq<Rule>) {
    if chain == [] then []
    else (if (chain[0] in rules) == ours then [chain[0]] else []) + Part(chain[1..], rules, ours)
  }

  function Ours(chain: seq<Rule>, rules: seq<Rule>): (c: seq<Rule>) {
    Part(chain, rules, true)
  }

  function Foreign(chain: seq<Rule>, rules: seq<Rule>): (c: seq<Rule>) {
    Part(chain, rules, false)
  }

  lemma {:induction false} PartConcat(a: seq<Rule>, b: seq<Rule>, rules: seq<Rule>, ours: bool)
    ensures Part(a + b, rules, ours) == Part(a, rules, ours) + Part(b, rules, ours)
  {
    if a == [] {
      assert a + b == b;
    } else {
      assert (a + b)[1..] == a[1..] + b && (a + b)[0] == a[0];
      PartConcat(a[1..], b, rules, ours);
      var head := if (a[0] in rules) == ours then [a[0]] else [];
      assert Part(a + b, rules, ours) == head + Part(a[1..] + b, rules, ours);
      assert head + (Part(a[1..], rules, ours) + Part(b, rules, ours)) ==
             (head + Part(a[1..], rules, ours)) + Part(b, rules, ours);
    }
  }

  lemma {:induction false} PartOfOwn(xs: seq<Rule>, rules: seq<Rule>)
    requires forall r :: r in xs ==> r in rules
    ensures Ours(xs, rules) == xs && Foreign(xs, rules) == []
  {
    if xs == [] {
    } else {
      PartOfOwn(xs[1..], rules);
    }
  }

  lemma {:induction false} PartMembers(chain: seq<Rule>, rules: seq<Rule>, ours: bool)
    ensures forall r :: r in Part(chain, rules, ours) <==> r in chain && (r in rules) == ours
  {
    if chain == [] {
    } else {
      PartMembers(chain[1..], rules, ours);
    }
  }

  /** With the first k rules present, the others are missing. */
  lemma {:induction false} MissingAfterPrefix(chain: seq<Rule>, rules: seq<Rule>, k: nat)
    requires Distinct(rules) && k <= |rules|
    requires forall i :: 0 <= i < |rules| ==> (rules[i] in chain <==> i < k)
    ensures Missing(chain, rules) == rules[k..]
  {
    if rules == [] {
    } else {
      var rest, k' := rules[1..], if k == 0 then 0 else k - 1;
      assert forall i :: 0 <= i < |rest| ==> rest[i] == rules[i + 1];
      MissingAfterPrefix(chain, rest, k');
      assert k == 0 ==> [rules[0]] + rest == rules;
    }
  }

  lemma MissingGivenOurs(chain: seq<Rule>, rules: seq<Rule>, k: nat)
    requires Distinct(rules) && k <= |rules| && Ours(chain, rules) == rules[..k]
    ensures Missing(chain, rules) == rules[k..]
  {
    PartMembers(chain, rules, true);
    forall i | 0 <= i < |rules| ensures rules[i] in chain <==> i < k {
      assert rules[i] in chain <==> rules[i] in rules[..k];
    }
    MissingAfterPrefix(chain, rules, k);
  }

  /** Setup never touches a foreign rule, and leaves goper's part extended by missing rules. */
  lemma SetupParts(chain: seq<Rule>, rules: seq<Rule>, outs: seq<Outcome>) returns (j: nat)
    requires Distinct(rules) && ChecksTruthful(chain, rules, outs)
    ensures j <= |Missing(chain, rules)|
    ensures var p := SetupRun(chain, rules, outs);
            && Foreign(p.chain, rules) == Foreign(chain, rules)
            && Ours(p.chain, rules) == Ours(chain, rules) + Missing(chain, rules)[..j]
            && (p.status == Completed ==> j == |Missing(chain, rules)|)
  {
    j := SetupAppends(chain, rules, outs);
    var added := Missing(chain, rules)[..j];
    MissingMembers(chain, rules);
    PartOfOwn(added, rules);
    PartConcat(chain, added, rules, true);
    PartConcat(chain, added, rules, false);
  }

  // ---- Sequences of runs --------------------------------------------------

  /** Setup and Teardown runs, each stopped or failing where its script says, with arbitrary edits
      of foreign rules by others in between. */
  datatype Event = RunSetup(outs: seq<Outcome>) | RunTeardown(outs: seq<Outcome>) | ForeignEdit(chain: seq<Rule>)

  function After(chain: seq<Rule>, rules: seq<Rule>, events: seq<Event>): (c: seq<Rule>) {
    if events == [] then chain
    else
      var c := After(chain, rules, events[..|events| - 1]);
      match events[|events| - 1]
      case RunSetup(outs) => SetupRun(c, rules, outs).chain
      case RunTeardown(outs) => TeardownRun(c, rules, outs)
      case ForeignEdit(edited) => edited
  }

  /** Foreign edits leave goper's part alone, and no check is misread. */
  ghost predicate WellBehaved(chain: seq<Rule>, rules: seq<Rule>, events: seq<Event>) {
    events == [] ||
    (var before := events[..|events| - 1];
     var c := After(chain, rules, before);
     WellBehaved(chain, rules, before) &&
     match events[|events| - 1]
     case RunSetup(outs) => ChecksTruthful(c, rules, outs)
     case RunTeardown(_) => true
     case ForeignEdit(edited) => Ours(edited, rules) == Ours(c, rules))
  }

  /** No Teardown has been run. */
  ghost predicate OnlySetups(events: seq<Event>) {
    forall e :: e in events ==> !e.RunTeardown?
  }

  /** Nobody else has edited the chain. */
  ghost predicate NoForeignEdits(events: seq<Event>) {
    forall e :: e in events ==> !e.ForeignEdit?
  }

  lemma PrefixExtends(rules: seq<Rule>, k: nat, j: nat)
    requires k + j <= |rules|
    ensures rules[..k] + rules[k..][..j] == rules[..k + j]
  {
  }

  /** As long as no Teardown is run, goper's rules form a prefix of its list: in order, none twice. */
  lemma {:induction false} AlwaysPrefix(chain: seq<Rule>, rules: seq<Rule>, events: seq<Event>) returns (k: nat)
    requires Distinct(rules) && Ours(chain, rules) == []
    requires WellBehaved(chain, rules, events) && OnlySetups(events)
    ensures k <= |rules| && Ours(After(chain, rules, events), rules) == rules[..k]
    ensures events != [] && events[|events| - 1].RunSetup? ==>
              var p := SetupRun(After(chain, rules, events[..|events| - 1]), rules, events[|events| - 1].outs);
              && p.chain == After(chain, rules, events)
              && (p.status == Completed ==> k == |rules|)
              && Foreign(p.chain, rules) == Foreign(After(chain, rules, events[..|events| - 1]), rules)
  {
    hide SetupRun, ChecksTruthful, Missing, Part;
    k := 0;
    if events == [] {
    } else {
      var before := events[..|events| - 1];
      assert events[|events| - 1] in events;
      k := AlwaysPrefix(chain, rules, before);
      if events[|events| - 1].RunSetup? {
        var c, outs := After(chain, rules, before), events[|events| - 1].outs;
        MissingGivenOurs(c, rules, k);
        var j := SetupParts(c, rules, outs);
        PrefixExtends(rules, k, j);
        k := k + j;
      }
    }
  }

  // ---- Teardown -----------------------------------------------------------

  lemma {:induction false} WithoutParts(chain: seq<Rule>, rules: seq<Rule>, r: Rule)
    requires r in rules
    ensures Foreign(Without(chain, r), rules) == Foreign(chain, rules)
    ensures Ours(Without(chain, r), rules) == Without(Ours(chain, rules), r)
  {
    if chain != [] && chain[0] == r {
      assert Ours(chain, rules) == [r] + Ours(chain[1..], rules);
    } else if chain != [] {
      var rest := Without(chain[1..], r);
      assert ([chain[0]] + rest)[1..] == rest;
      WithoutParts(chain[1..], rules, r);
      var tail := Ours(chain[1..], rules);
      assert ([chain[0]] + tail)[1..] == tail && [] + tail == tail;
      assert chain[0] in rules ==> Without([chain[0]] + tail, r) == [chain[0]] + Without(tail, r);
    }
  }

  /** Whatever fails, Teardown never touches a foreign rule, and on goper's part it does what it
      would do to that part alone. */
  lemma {:induction false} TeardownParts(chain: seq<Rule>, rules: seq<Rule>, all: seq<Rule>, outs: seq<Outcome>)
    requires forall r :: r in rules ==> r in all
    ensures Foreign(TeardownRun(chain, rules, outs), all) == Foreign(chain, all)
    ensures Ours(TeardownRun(chain, rules, outs), all) == TeardownRun(Ours(chain, all), rules, outs)
    decreases |rules|
  {
    if rules == [] || outs == [] {
    } else {
      assert rules[0] in rules;
      WithoutParts(chain, all, rules[0]);
      TeardownParts(Effect(chain, Delete(rules[0]), outs[0]), rules[1..], all, outs[1..]);
    }
  }

  /** Teardown's delete of this rule was carried out. */
  ghost predicate Deleted(rules: seq<Rule>, outs: seq<Outcome>, r: Rule) {
    exists i :: 0 <= i < |rules| && i < |outs| && rules[i] == r && outs[i] == Truthful
  }

  lemma {:induction false} CountWithout(chain: seq<Rule>, r: Rule)
    ensures multiset(Without(chain, r)) == multiset(chain) - multiset{r}
  {
    if chain == [] {
    } else {
      assert chain == [chain[0]] + chain[1..];
      if chain[0] != r {
        CountWithout(chain[1..], r);
      }
    }
  }

  lemma DeletedStep(rules: seq<Rule>, outs: seq<Outcome>, r: Rule)
    requires rules != [] && outs != []
    ensures Deleted(rules, outs, r) <==> (rules[0] == r && outs[0] == Truthful) || Deleted(rules[1..], outs[1..], r)
  {
    if i :| 0 < i < |rules| && i < |outs| && rules[i] == r && outs[i] == Truthful {
      assert rules[1..][i - 1] == r && outs[1..][i - 1] == Truthful;
    }
    if i :| 0 <= i < |rules[1..]| && i < |outs[1..]| && rules[1..][i] == r && outs[1..][i] == Truthful {
      assert rules[i + 1] == r && outs[i + 1] == Truthful;
    }
  }

  /** Each delete that is carried out removes one copy of its rule, and nothing else is removed. */
  lemma {:induction false} TeardownCounts(chain: seq<Rule>, rules: seq<Rule>, outs: seq<Outcome>, r: Rule)
    requires Distinct(rules)
    ensures multiset(TeardownRun(chain, rules, outs))[r] ==
            if Deleted(rules, outs, r) && r in chain then multiset(chain)[r] - 1 else multiset(chain)[r]
    decreases |rules|
  {
    hide Deleted, Effect;
    if rules == [] || outs == [] {
      NotDeleted(rules, outs, r);
    } else {
      var c := Effect(chain, Delete(rules[0]), outs[0]);
      assert TeardownRun(chain, rules, outs) == TeardownRun(c, rules[1..], outs[1..]);
      DeleteCounts(chain, rules[0], outs[0], r);
      DeletedStep(rules, outs, r);
      TeardownCounts(c, rules[1..], outs[1..], r);
      if rules[0] == r {
        assert r !in rules[1..];
        NotDeleted(rules[1..], outs[1..], r);
      }
    }
  }

  lemma DeleteCounts(chain: seq<Rule>, d: Rule, outcome: Outcome, r: Rule)
    ensures var c := Effect(chain, Delete(d), outcome);
            && multiset(c)[r] == multiset(chain)[r] - (if r == d && outcome == Truthful && r in chain then 1 else 0)
            && (r != d ==> (r in c <==> r in chain))
  {
    CountWithout(chain, d);
    var c := Effect(chain, Delete(d), outcome);
    assert r in c <==> multiset(c)[r] > 0;
  }

  lemma NotDeleted(rules: seq<Rule>, outs: seq<Outcome>, r: Rule)
    requires r !in rules || outs == []
    ensures !Deleted(rules, outs, r)
  {
  }

  /** No rule of the list occurs twice. */
  ghost predicate AtMostOnce(chain: seq<Rule>, rules: seq<Rule>) {
    forall r :: r in rules ==> multiset(chain)[r] <= 1
  }

  /** Every delete of a Teardown was carried out. */
  ghost predicate Clean(rules: seq<Rule>, outs: seq<Outcome>) {
    |rules| <= |outs| && forall i :: 0 <= i < |rules| ==> outs[i] == Truthful
  }

  /** When Teardown leaves nothing of goper's: each rule was absent, or there once and deleted. So a
      clean Teardown does exactly when no rule is there twice. */
  lemma TeardownClears(chain: seq<Rule>, rules: seq<Rule>, outs: seq<Outcome>)
    requires Distinct(rules)
    ensures Ours(TeardownRun(chain, rules, outs), rules) == [] <==>
            forall r :: r in rules ==>
                          r !in chain || (multiset(chain)[r] == 1 && Deleted(rules, outs, r))
    ensures Clean(rules, outs) ==>
              (Ours(TeardownRun(chain, rules, outs), rules) == [] <==> AtMostOnce(chain, rules))
  {
    hide TeardownRun, Deleted, Part;
    var after := TeardownRun(chain, rules, outs);
    PartMembers(after, rules, true);
    forall r | r in rules
      ensures r in Ours(after, rules) <==>
              !(r !in chain || (multiset(chain)[r] == 1 && Deleted(rules, outs, r)))
    {
      TeardownCounts(chain, rules, outs, r);
      assert r in after <==> multiset(after)[r] > 0;
    }
    if Ours(after, rules) != [] {
      assert Ours(after, rules)[0] in Ours(after, rules);
    }
    if Clean(rules, outs) {
      forall r | r in rules ensures Deleted(rules, outs, r) {
        CleanDeletes(rules, outs, r);
      }
      assert forall r :: r in rules ==> (r in chain <==> multiset(chain)[r] > 0);
    }
  }

  lemma CleanDeletes(rules: seq<Rule>, outs: seq<Outcome>, r: Rule)
    requires Clean(rules, outs) && r in rules
    ensures Deleted(rules, outs, r)
  {
    var i :| 0 <= i < |rules| && rules[i] == r;
    assert outs[i] == Truthful;
  }

  lemma {:induction false} PartsCover(chain: seq<Rule>, rules: seq<Rule>)
    requires Ours(chain, rules) == []
    ensures Foreign(chain, rules) == chain
  {
    if chain == [] {
    } else {
      PartsCover(chain[1..], rules);
    }
  }

  lemma {:induction false} CountOurs(chain: seq<Rule>, rules: seq<Rule>, r: Rule)
    requires r in rules
    ensures multiset(Ours(chain, rules))[r] == multiset(chain)[r]
  {
    if chain == [] {
    } else {
      assert chain == [chain[0]] + chain[1..];
      CountOurs(chain[1..], rules, r);
    }
  }

  /** Setup reaches a rule that is there, misreads its check, and the append then works. */
  ghost predicate Duplicates(chain: seq<Rule>, rules: seq<Rule>, outs: seq<Outcome>)
    decreases |rules|
  {
    rules != [] &&
    ((Misread(chain, rules[0], outs) && |outs| > 1 && outs[1] == Truthful) ||
     var p := EnsureRule(chain, rules[0], outs);
     p.status == Completed && Duplicates(p.chain, rules[1..], p.left))
  }

  /** One check and append, misread or not. */
  lemma EnsureCounts(chain: seq<Rule>, r: Rule, outs: seq<Outcome>)
    ensures var p := EnsureRule(chain, r, outs);
            && (p.chain == chain || p.chain == chain + [r])
            && (r in chain ==>
                  (p.chain == chain + [r] <==> Misread(chain, r, outs) && |outs| > 1 && outs[1] == Truthful))
  {
    assert |chain + [r]| != |chain|;
  }

  lemma {:induction false} SetupOnlyAdds(chain: seq<Rule>, rules: seq<Rule>, outs: seq<Outcome>)
    returns (added: seq<Rule>)
    ensures SetupRun(chain, rules, outs).chain == chain + added && forall r :: r in added ==> r in rules
    decreases |rules|
  {
    hide EnsureRule;
    if rules == [] {
      added := [];
    } else {
      var p := EnsureRule(chain, rules[0], outs);
      EnsureCounts(chain, rules[0], outs);
      var first := if p.chain == chain then [] else [rules[0]];
      added := first;
      if p.status == Completed {
        var rest := SetupOnlyAdds(p.chain, rules[1..], p.left);
        added := first + rest;
        assert chain + first + rest == chain + (first + rest);
      }
    }
  }

  lemma CountAppend(chain: seq<Rule>, added: seq<Rule>, r: Rule)
    ensures multiset(chain + added)[r] == multiset(chain)[r] + multiset(added)[r]
    ensures r in chain <==> multiset(chain)[r] > 0
  {
  }

  /** When a Setup, truthful or not, leaves some rule twice: exactly if a misread check is followed by an
      append that works. */
  lemma {:induction false} SetupDuplicatesExactly(
    chain: seq<Rule>, rules: seq<Rule>, all: seq<Rule>, outs: seq<Outcome>)
    requires Distinct(rules) && AtMostOnce(chain, all) && forall r :: r in rules ==> r in all
    ensures AtMostOnce(SetupRun(chain, rules, outs).chain, all) <==> !Duplicates(chain, rules, outs)
    decreases |rules|
  {
    hide EnsureRule, Misread;
    if rules == [] {
    } else {
      var p, r := EnsureRule(chain, rules[0], outs), rules[0];
      assert r in rules;
      EnsureCounts(chain, r, outs);
      var rest := SetupOnlyAdds(p.chain, rules[1..], p.left);
      forall x ensures multiset(p.chain)[x] == multiset(chain)[x] + if x == r && p.chain != chain then 1 else 0 {
        CountAppend(chain, [r], x);
      }
      CountAppend(chain, [], r);
      if r in chain && p.chain != chain {
        CountAppend(p.chain, rest, r);
        assert multiset(p.chain)[r] > 1;
      } else {
        assert AtMostOnce(p.chain, all);
        if p.status == Completed {
          SetupDuplicatesExactly(p.chain, rules[1..], all, p.left);
        }
        if r !in chain {
          NotMisread(chain, r, outs);
        }
      }
    }
  }

  lemma NotMisread(chain: seq<Rule>, r: Rule, outs: seq<Outcome>)
    requires r !in chain
    ensures !Misread(chain, r, outs)
  {
  }

  /** It happens: a check that exits with an error of its own doubles the rule that was there. */
  lemma SetupCanDuplicate(r: Rule)
    ensures SetupRun([r], [r], [ErrorExit, Truthful]) == Progress([r, r], Completed, [])
    ensures Duplicates([r], [r], [ErrorExit, Truthful])
  {
    assert EnsureRule([r], r, [ErrorExit, Truthful]) == Progress([r] + [r], Completed, []);
    assert SetupRun([r] + [r], [], []) == Progress([r, r], Completed, []);
  }

  lemma {:induction false} TruthfulNeverDuplicates(chain: seq<Rule>, rules: seq<Rule>, outs: seq<Outcome>)
    requires ChecksTruthful(chain, rules, outs)
    ensures !Duplicates(chain, rules, outs)
    decreases |rules|
  {
    hide EnsureRule, Misread;
    if rules == [] {
    } else {
      var p := EnsureRule(chain, rules[0], outs);
      if p.status == Completed {
        TruthfulNeverDuplicates(p.chain, rules[1..], p.left);
      }
    }
  }

  /** Foreign edits leave goper's part alone, and no Setup duplicates a rule; its checks may lie as long as
      the appends that follow them fail. */
  ghost predicate NoneDuplicated(chain: seq<Rule>, rules: seq<Rule>, events: seq<Event>) {
    events == [] ||
    (var before := events[..|events| - 1];
     var c := After(chain, rules, before);
     NoneDuplicated(chain, rules, before) &&
     match events[|events| - 1]
     case RunSetup(outs) => !Duplicates(c, rules, outs)
     case RunTeardown(_) => true
     case ForeignEdit(edited) => Ours(edited, rules) == Ours(c, rules))
  }

  /** In particular if no check is misread. */
  lemma {:induction false} WellBehavedIsEnough(chain: seq<Rule>, rules: seq<Rule>, events: seq<Event>)
    requires WellBehaved(chain, rules, events)
    ensures NoneDuplicated(chain, rules, events)
  {
    hide ChecksTruthful, Duplicates, After, Ours;
    if events == [] {
    } else {
      var before := events[..|events| - 1];
      WellBehavedIsEnough(chain, rules, before);
      if events[|events| - 1].RunSetup? {
        TruthfulNeverDuplicates(After(chain, rules, before), rules, events[|events| - 1].outs);
      }
    }
  }

  /** Setup never touches a foreign rule, whatever its checks say. */
  lemma SetupKeepsForeign(chain: seq<Rule>, rules: seq<Rule>, outs: seq<Outcome>)
    ensures Foreign(SetupRun(chain, rules, outs).chain, rules) == Foreign(chain, rules)
  {
    hide SetupRun;
    var added := SetupOnlyAdds(chain, rules, outs);
    PartOfOwn(added, rules);
    PartConcat(chain, added, rules, false);
  }

  /** Over every sequence of Setups and Teardowns, stopped or failing anywhere, and of foreign edits:
      goper's rules are never there twice, and foreign rules change by foreign edits alone. */
  lemma {:induction false} OnceAlways(chain: seq<Rule>, rules: seq<Rule>, events: seq<Event>)
    requires Distinct(rules) && Ours(chain, rules) == [] && NoneDuplicated(chain, rules, events)
    ensures AtMostOnce(After(chain, rules, events), rules)
    ensures NoForeignEdits(events) ==> Foreign(After(chain, rules, events), rules) == chain
  {
    hide SetupRun, TeardownRun, Duplicates, Part, Ours;
    if events == [] {
      PartsCover(chain, rules);
      forall r | r in rules ensures multiset(chain)[r] <= 1 {
        CountOurs(chain, rules, r);
      }
    } else {
      var before, last := events[..|events| - 1], events[|events| - 1];
      var c := After(chain, rules, before);
      OnceAlways(chain, rules, before);
      assert last in events;
      match last
      case RunSetup(outs) =>
        SetupDuplicatesExactly(c, rules, rules, outs);
        SetupKeepsForeign(c, rules, outs);
      case RunTeardown(outs) =>
        forall r | r in rules ensures multiset(TeardownRun(c, rules, outs))[r] <= 1 {
          TeardownCounts(c, rules, outs, r);
        }
        TeardownParts(c, rules, rules, outs);
      case ForeignEdit(edited) =>
        forall r | r in rules ensures multiset(edited)[r] <= 1 {
          CountOurs(edited, rules, r);
          CountOurs(c, rules, r);
        }
    }
  }

  /** Whatever happened before, completed or not, a clean Teardown leaves exactly the foreign rules:
      the original chain if nobody else edited it. */
  lemma TeardownRestores(chain: seq<Rule>, rules: seq<Rule>, events: seq<Event>, outs: seq<Outcome>)
    requires Distinct(rules) && Ours(chain, rules) == [] && NoneDuplicated(chain, rules, events)
    requires Clean(rules, outs)
    ensures TeardownRun(After(chain, rules, events), rules, outs) == Foreign(After(chain, rules, events), rules)
    ensures NoForeignEdits(events) ==> TeardownRun(After(chain, rules, events), rules, outs) == chain
  {
    hide TeardownRun, After, Part, NoneDuplicated;
    var now := After(chain, rules, events);
    OnceAlways(chain, rules, events);
    TeardownClears(now, rules, outs);
    TeardownParts(now, rules, rules, outs);
    PartsCover(TeardownRun(now, rules, outs), rules);
  }

  // ---- Setup after an incomplete Teardown ---------------------------------

  /** A completed Setup restores the order of goper's rules exactly when those it found were
      already a prefix of its list. */
  lemma SetupOrder(chain: seq<Rule>, rules: seq<Rule>, outs: seq<Outcome>)
    requires Distinct(rules) && ChecksTruthful(chain, rules, outs)
    requires SetupRun(chain, rules, outs).status == Completed
    ensures Ours(SetupRun(chain, rules, outs).chain, rules) == rules <==> Ours(chain, rules) <= rules
  {
    var j := SetupParts(chain, rules, outs);
    assert Missing(chain, rules)[..j] == Missing(chain, rules);
    if Ours(chain, rules) <= rules {
      var k := |Ours(chain, rules)|;
      assert Ours(chain, rules) == rules[..k];
      MissingGivenOurs(chain, rules, k);
    }
  }

  /** It can go wrong: one failed delete, then a clean Setup, and the rule that lets goper's own
      traffic pass ends up behind the redirect of port 443. */
  lemma FailedDeleteReorders(uid: int, port: int)
    ensures var rules := GoperRules(uid, port);
            var left := TeardownRun(rules, rules, [Truthful, Truthful, ErrorExit]);
            SetupRun(left, rules, [Truthful, Truthful, Truthful, Truthful, Truthful]) ==
            Progress([rules[2], rules[0], rules[1]], Completed, [])
  {
    var rules := GoperRules(uid, port);
    var outs := [Truthful, Truthful, Truthful, Truthful, Truthful];
    assert rules[0] != rules[1] && rules[0] != rules[2] && rules[1] != rules[2];
    var left := [rules[2]];
    assert Without(rules, rules[0]) == [rules[1], rules[2]];
    assert Without([rules[1], rules[2]], rules[1]) == left;
    assert TeardownRun(left, [rules[2]], [ErrorExit]) == left by {
      assert TeardownRun(left, [], []) == left;
    }
    assert TeardownRun([rules[1], rules[2]], rules[1..], [Truthful, ErrorExit]) == left;
    assert TeardownRun(rules, rules, [Truthful, Truthful, ErrorExit]) == left;
    assert EnsureRule(left, rules[0], outs) == Progress(left + [rules[0]], Completed, outs[2..]);
    var full := [rules[2], rules[0], rules[1]];
    assert EnsureRule(left + [rules[0]], rules[1], outs[2..]) == Progress(full, Completed, outs[4..]);
    assert SetupRun(full, [], []) == Progress(full, Completed, []);
    assert SetupRun(full, rules[2..], outs[4..]) == Progress(full, Completed, []);
    assert SetupRun(left + [rules[0]], rules[1..], outs[2..]) == Progress(full, Completed, []);
  }

  // ---- What the rules do to traffic ---------------------------------------

  /** A locally made TCP connection: who makes it, and to which port. */
  datatype Packet = Packet(uid: int, dport: int)

  datatype Verdict = Continue | Leave | RedirectTo(port: string)

  /** What the text of a rule says about a packet, for the two kinds of rule goper writes; any other text
      decides nothing. */
  function GoperVerdict(r: Rule, p: Packet): (v: Verdict) {
    if r.table != "nat" || r.chain != "OUTPUT" then Continue
    else if r.spec == ["-m", "owner", "--uid-owner", Itoa(p.uid), "-j", "RETURN"] then Leave
    else if |r.spec| == 8 && r.spec[..7] == ["-p", "tcp", "--dport", Itoa(p.dport), "-j", "REDIRECT", "--to-port"]
    then RedirectTo(r.spec[7])
    else Continue
  }

  /** A chain applies its first rule that decides. */
  function Traverse(chain: seq<Rule>, says: Rule -> Verdict): (v: Verdict) {
    if chain == [] then Continue
    else if says(chain[0]) != Continue then says(chain[0])
    else Traverse(chain[1..], says)
  }

  /** goper's rules mean what they say, and no foreign rule of the chain decides the packet. */
  ghost predicate Undisturbed(chain: seq<Rule>, rules: seq<Rule>, p: Packet, says: Rule -> Verdict) {
    && (forall r :: r in rules ==> says(r) == GoperVerdict(r, p))
    && (forall r :: r in chain && r !in rules ==> says(r) == Continue)
  }

  lemma {:induction false} OnlyOursDecide(chain: seq<Rule>, rules: seq<Rule>, p: Packet, says: Rule -> Verdict)
    requires Undisturbed(chain, rules, p, says)
    ensures Traverse(chain, says) == Traverse(Ours(chain, rules), says)
  {
    if chain == [] {
    } else {
      OnlyOursDecide(chain[1..], rules, p, says);
      var tail := Ours(chain[1..], rules);
      assert ([chain[0]] + tail)[1..] == tail && [] + tail == tail;
    }
  }

  lemma PortNames()
    ensures Itoa(80) == "80" && Itoa(443) == "443"
  {
    assert Digits(8) == "8" && Digits(4) == "4";
    assert Digits(44) == "44";
  }

  lemma RuleVerdicts(uid: int, port: int, p: Packet)
    ensures var rules := GoperRules(uid, port);
            && GoperVerdict(rules[0], p) == (if p.uid == uid then Leave else Continue)
            && GoperVerdict(rules[1], p) == (if p.dport == 80 then RedirectTo(Itoa(port)) else Continue)
            && GoperVerdict(rules[2], p) == (if p.dport == 443 then RedirectTo(Itoa(port)) else Continue)
  {
    PortNames();
    var rules := GoperRules(uid, port);
    if p.uid != uid && Itoa(p.uid) == Itoa(uid) {
      ItoaInjective(p.uid, uid);
    }
    if Itoa(p.dport) == "80" {
      ItoaInjective(p.dport, 80);
    }
    if Itoa(p.dport) == "443" {
      ItoaInjective(p.dport, 443);
    }
    var exempt := ["-m", "owner", "--uid-owner", Itoa(p.uid), "-j", "RETURN"];
    assert rules[0].spec[3] == Itoa(uid) && exempt[3] == Itoa(p.uid);
    assert forall i :: 1 <= i < 3 ==> |rules[i].spec| == 8 && |exempt| == 6;
    var shape := ["-p", "tcp", "--dport", Itoa(p.dport), "-j", "REDIRECT", "--to-port"];
    assert rules[1].spec[..7] == shape <==> rules[1].spec[3] == shape[3];
    assert rules[2].spec[..7] == shape <==> rules[2].spec[3] == shape[3];
  }

  lemma PrefixVerdict(uid: int, port: int, k: nat, p: Packet, says: Rule -> Verdict)
    requires k <= 3 && forall r :: r in GoperRules(uid, port) ==> says(r) == GoperVerdict(r, p)
    ensures Traverse(GoperRules(uid, port)[..k], says) ==
            if p.uid == uid && k > 0 then Leave
            else if (p.dport == 80 && k > 1) || (p.dport == 443 && k > 2) then RedirectTo(Itoa(port))
            else Continue
  {
    hide GoperVerdict;
    var rules := GoperRules(uid, port);
    RuleVerdicts(uid, port, p);
    assert rules[0] in rules && rules[1] in rules && rules[2] in rules;
    var last := if k >= 3 then [rules[2]] else [];
    var mid := if k >= 2 then [rules[1]] + last else [];
    assert last != [] ==> last[1..] == [];
    assert mid != [] ==> mid[1..] == last;
    assert Traverse([], says) == Continue;
    assert Traverse(last, says) == if k >= 3 then says(rules[2]) else Continue;
    assert k >= 1 ==> rules[..k] == [rules[0]] + mid && rules[..k][1..] == mid;
    assert k == 0 ==> rules[..k] == [];
  }

  /** A connection of goper's own to this port meets a redirect before the rule that exempts it. */
  ghost predicate Exposed(chain: seq<Rule>, uid: int, port: int, dport: int) {
    exists i :: 0 <= i < |chain| && chain[i] == Redirect(Itoa(dport), port) && OwnerReturn(uid) !in chain[..i]
  }

  lemma ExposedAt(chain: seq<Rule>, uid: int, port: int, dport: int, i: nat)
    requires i < |chain| && chain[i] == Redirect(Itoa(dport), port) && OwnerReturn(uid) !in chain[..i]
    ensures Exposed(chain, uid, port, dport)
  {
  }

  /** Exposure behind the first rule, if that is not the exemption. */
  lemma ExposedBehind(chain: seq<Rule>, uid: int, port: int, dport: int)
    requires chain != [] && chain[0] != OwnerReturn(uid) && Exposed(chain[1..], uid, port, dport)
    ensures Exposed(chain, uid, port, dport)
  {
    hide Redirect, OwnerReturn;
    var rest := chain[1..];
    var i :| 0 <= i < |rest| && rest[i] == Redirect(Itoa(dport), port) && OwnerReturn(uid) !in rest[..i];
    assert chain[..i + 1] == [chain[0]] + rest[..i];
    ExposedAt(chain, uid, port, dport, i + 1);
  }

  lemma ExposedInFront(chain: seq<Rule>, uid: int, port: int, dport: int)
    requires chain != [] && Exposed(chain, uid, port, dport) && chain[0] != Redirect(Itoa(dport), port)
    ensures chain[0] != OwnerReturn(uid) && Exposed(chain[1..], uid, port, dport)
  {
    hide Redirect, OwnerReturn;
    var rest := chain[1..];
    var i :| 0 <= i < |chain| && chain[i] == Redirect(Itoa(dport), port) && OwnerReturn(uid) !in chain[..i];
    assert chain[..i] == [chain[0]] + rest[..i - 1];
    assert chain[0] in chain[..i] && forall r :: r in rest[..i - 1] ==> r in chain[..i];
    ExposedAt(rest, uid, port, dport, i - 1);
  }

  lemma ExposedStep(chain: seq<Rule>, uid: int, port: int, dport: int)
    requires chain != []
    ensures Exposed(chain, uid, port, dport) <==>
            || chain[0] == Redirect(Itoa(dport), port)
            || (chain[0] != OwnerReturn(uid) && Exposed(chain[1..], uid, port, dport))
  {
    hide Redirect, OwnerReturn, Exposed;
    if chain[0] == Redirect(Itoa(dport), port) {
      ExposedAt(chain, uid, port, dport, 0);
    } else if Exposed(chain, uid, port, dport) {
      ExposedInFront(chain, uid, port, dport);
    } else if chain[0] != OwnerReturn(uid) && Exposed(chain[1..], uid, port, dport) {
      ExposedBehind(chain, uid, port, dport);
    }
  }

  predicate IsWeb(dport: int) {
    dport == 80 || dport == 443
  }

  /** What one rule of an undisturbed chain does to a packet. */
  lemma VerdictOf(r: Rule, uid: int, port: int, p: Packet, says: Rule -> Verdict)
    requires Undisturbed([r], GoperRules(uid, port), p, says)
    ensures says(r) == if IsWeb(p.dport) && r == Redirect(Itoa(p.dport), port) then RedirectTo(Itoa(port))
                       else if p.uid == uid && r == OwnerReturn(uid) then Leave
                       else Continue
  {
    hide GoperVerdict;
    var rules := GoperRules(uid, port);
    RuleVerdicts(uid, port, p);
    PortNames();
    assert r in [r];
    assert rules[0] in rules && rules[1] in rules && rules[2] in rules;
    assert r in rules ==> r in {rules[0], rules[1], rules[2]};
  }

  /** What an undisturbed chain does to any packet, exactly: goper's own traffic is redirected if
      and only if it is exposed, everyone else's web traffic if and only if its redirect is there,
      and nothing is redirected anywhere but to the proxy. */
  lemma {:induction false} RedirectedExactly(
    uid: int, port: int, chain: seq<Rule>, p: Packet, says: Rule -> Verdict)
    requires Undisturbed(chain, GoperRules(uid, port), p, says)
    ensures Traverse(chain, says).RedirectTo? <==>
            && IsWeb(p.dport)
            && if p.uid == uid then Exposed(chain, uid, port, p.dport) else Redirect(Itoa(p.dport), port) in chain
    ensures Traverse(chain, says).RedirectTo? ==> Traverse(chain, says).port == Itoa(port)
  {
    hide GoperVerdict, Redirect, OwnerReturn, Exposed, GoperRules;
    if chain == [] {
      NothingExposed(uid, port, p.dport);
    } else {
      assert chain[0] in chain;
      VerdictOf(chain[0], uid, port, p, says);
      ExposedStep(chain, uid, port, p.dport);
      RedirectedExactly(uid, port, chain[1..], p, says);
    }
  }

  lemma NothingExposed(uid: int, port: int, dport: int)
    ensures !Exposed([], uid, port, dport)
  {
  }

  /** goper never redirects its own traffic, at any moment of any sequence of Setup runs, wherever
      they were stopped; and once a Setup has completed, everyone else's web traffic goes to
      the proxy. */
  lemma TrafficOverRuns(uid: int, port: int, chain: seq<Rule>, events: seq<Event>, p: Packet, says: Rule -> Verdict)
    requires var rules := GoperRules(uid, port);
             && Ours(chain, rules) == [] && WellBehaved(chain, rules, events) && OnlySetups(events)
             && Undisturbed(After(chain, rules, events), rules, p, says)
    ensures var now := After(chain, GoperRules(uid, port), events);
            && (p.uid == uid ==> !Traverse(now, says).RedirectTo?)
            && (Ours(now, GoperRules(uid, port)) == GoperRules(uid, port) && p.uid != uid ==>
                  Traverse(now, says) == if IsWeb(p.dport) then RedirectTo(Itoa(port)) else Continue)
  {
    var rules := GoperRules(uid, port);
    var k := AlwaysPrefix(chain, rules, events);
    OnlyOursDecide(After(chain, rules, events), rules, p, says);
    PrefixVerdict(uid, port, k, p, says);
    assert |rules| == 3 && |rules[..k]| == k;
  }

  /** Setup neither causes nor cures a loop: wherever it stops, goper's own traffic is exposed
      afterwards exactly if it was before. */
  lemma SetupKeepsExposure(uid: int, port: int, chain: seq<Rule>, outs: seq<Outcome>, dport: int)
    requires ChecksTruthful(chain, GoperRules(uid, port), outs) && IsWeb(dport)
    ensures Exposed(SetupRun(chain, GoperRules(uid, port), outs).chain, uid, port, dport) <==>
            Exposed(chain, uid, port, dport)
  {
    hide SetupRun, ChecksTruthful, Exposed;
    var rules := GoperRules(uid, port);
    var j := SetupAppends(chain, rules, outs);
    var added := Missing(chain, rules)[..j];
    PortNames();
    if OwnerReturn(uid) in chain {
      ExposedBefore(chain, added, uid, port, dport);
    } else if Redirect(Itoa(dport), port) in chain {
      UnexemptedIsExposed(chain, uid, port, dport);
      UnexemptedStaysExposed(chain, added, uid, port, dport);
    } else {
      MissingMembers(chain, rules);
      assert rules[0] == OwnerReturn(uid);
      ExemptedFirst(chain, added, uid, port, dport);
    }
  }

  /** Behind the exemption nothing is exposed. */
  lemma ExposedBefore(chain: seq<Rule>, added: seq<Rule>, uid: int, port: int, dport: int)
    requires OwnerReturn(uid) in chain
    ensures Exposed(chain + added, uid, port, dport) <==> Exposed(chain, uid, port, dport)
  {
    hide Redirect, OwnerReturn;
    var k :| 0 <= k < |chain| && chain[k] == OwnerReturn(uid);
    forall i | k < i <= |chain + added| ensures OwnerReturn(uid) in (chain + added)[..i] {
      assert (chain + added)[..i][k] == OwnerReturn(uid);
    }
    assert forall i :: 0 <= i < |chain| ==> (chain + added)[..i] == chain[..i];
  }

  lemma UnexemptedIsExposed(chain: seq<Rule>, uid: int, port: int, dport: int)
    requires OwnerReturn(uid) !in chain && Redirect(Itoa(dport), port) in chain
    ensures Exposed(chain, uid, port, dport)
  {
    hide Redirect, OwnerReturn;
    var i :| 0 <= i < |chain| && chain[i] == Redirect(Itoa(dport), port);
    assert forall r :: r in chain[..i] ==> r in chain;
  }

  lemma UnexemptedStaysExposed(chain: seq<Rule>, added: seq<Rule>, uid: int, port: int, dport: int)
    requires Exposed(chain, uid, port, dport)
    ensures Exposed(chain + added, uid, port, dport)
  {
    hide Redirect, OwnerReturn;
    var i :| 0 <= i < |chain| && chain[i] == Redirect(Itoa(dport), port) && OwnerReturn(uid) !in chain[..i];
    assert (chain + added)[i] == chain[i] && (chain + added)[..i] == chain[..i];
  }

  /** If neither was there and the exemption is added first, nothing is exposed. */
  lemma ExemptedFirst(chain: seq<Rule>, added: seq<Rule>, uid: int, port: int, dport: int)
    requires Redirect(Itoa(dport), port) !in chain && (added == [] || added[0] == OwnerReturn(uid))
    ensures !Exposed(chain, uid, port, dport) && !Exposed(chain + added, uid, port, dport)
  {
    hide Redirect, OwnerReturn;
    forall i | 0 <= i < |chain + added| && (chain + added)[i] == Redirect(Itoa(dport), port)
      ensures OwnerReturn(uid) in (chain + added)[..i]
    {
      assert i >= |chain|;
      RedirectIsNotExemption(uid, port, dport);
      assert i > |chain| && (chain + added)[..i][|chain|] == OwnerReturn(uid);
    }
  }

  lemma RedirectIsNotExemption(uid: int, port: int, dport: int)
    ensures Redirect(Itoa(dport), port) != OwnerReturn(uid)
  {
    assert |Redirect(Itoa(dport), port).spec| == 8 && |OwnerReturn(uid).spec| == 6;
  }

  lemma {:induction false} HeadStays(chain: seq<Rule>, rules: seq<Rule>, outs: seq<Outcome>)
    requires chain != [] && chain[0] !in rules
    ensures var c := TeardownRun(chain, rules, outs); c != [] && c[0] == chain[0]
    decreases |rules|
  {
    if rules == [] || outs == [] {
    } else {
      assert rules[0] in rules;
      HeadStays(Effect(chain, Delete(rules[0]), outs[0]), rules[1..], outs[1..]);
    }
  }

  /** Delete number i of a Teardown was carried out. */
  predicate Done(outs: seq<Outcome>, i: nat) {
    i < |outs| && outs[i] == Truthful
  }

  /** What a Teardown does to goper's own traffic, at every moment and whatever fails: it is redirected
      exactly while the exemption is deleted and the redirect of its port, if it was installed, is not. */
  lemma TeardownTraffic(
    uid: int, port: int, chain: seq<Rule>, k: nat, outs: seq<Outcome>, dport: int, says: Rule -> Verdict)
    requires var rules := GoperRules(uid, port);
             && k <= 3 && Ours(chain, rules) == rules[..k]
             && Undisturbed(TeardownRun(chain, rules, outs), rules, Packet(uid, dport), says)
    ensures Traverse(TeardownRun(chain, GoperRules(uid, port), outs), says).RedirectTo? <==>
            IsWeb(dport) && var i := if dport == 80 then 1 else 2; i < k && Done(outs, 0) && !Done(outs, i)
  {
    hide TeardownRun, Part, Redirect, OwnerReturn, GoperVerdict, Traverse;
    var rules, p := GoperRules(uid, port), Packet(uid, dport);
    var now := TeardownRun(chain, rules, outs);
    OnlyOursDecide(now, rules, p, says);
    TeardownParts(chain, rules, rules, outs);
    var left := TeardownRun(rules[..k], rules, outs);
    PartMembers(now, rules, true);
    RedirectedExactly(uid, port, Ours(now, rules), p, says);
    if IsWeb(dport) {
      var i := if dport == 80 then 1 else 2;
      PortNames();
      LeftOver(rules, k, outs, 0);
      LeftOver(rules, k, outs, i);
      if k > 0 && !Done(outs, 0) {
        ExemptionStays(uid, port, k, outs, dport);
      } else if rules[i] in left {
        UnexemptedIsExposed(left, uid, port, dport);
      } else {
        ExemptedFirst(left, [], uid, port, dport);
      }
    }
  }

  /** Which rules of an installed prefix a Teardown leaves. */
  lemma LeftOver(rules: seq<Rule>, k: nat, outs: seq<Outcome>, i: nat)
    requires Distinct(rules) && k <= |rules| && i < |rules|
    ensures rules[i] in TeardownRun(rules[..k], rules, outs) <==> i < k && !Done(outs, i)
  {
    var left := TeardownRun(rules[..k], rules, outs);
    TeardownCounts(rules[..k], rules, outs, rules[i]);
    CountOnce(rules, k, i);
    assert rules[i] in left <==> multiset(left)[rules[i]] > 0;
    assert Deleted(rules, outs, rules[i]) <==> Done(outs, i);
  }

  lemma {:induction false} CountOnce(rules: seq<Rule>, k: nat, i: nat)
    requires Distinct(rules) && k <= |rules| && i < |rules|
    ensures multiset(rules[..k])[rules[i]] == if i < k then 1 else 0
    ensures rules[i] in rules[..k] <==> i < k
  {
    if k == 0 {
    } else {
      CountOnce(rules, k - 1, i);
      assert rules[..k] == rules[..k - 1] + [rules[k - 1]];
    }
  }

  lemma ExemptionStays(uid: int, port: int, k: nat, outs: seq<Outcome>, dport: int)
    requires 0 < k <= 3 && !Done(outs, 0)
    ensures !Exposed(TeardownRun(GoperRules(uid, port)[..k], GoperRules(uid, port), outs), uid, port, dport)
  {
    hide Exposed, Redirect, OwnerReturn;
    var rules := GoperRules(uid, port);
    var left := TeardownRun(rules[..k], rules, outs);
    assert rules[..k][0] == rules[0] == OwnerReturn(uid);
    if outs != [] {
      assert rules[0] !in rules[1..];
      HeadStays(rules[..k], rules[1..], outs[1..]);
      assert left == TeardownRun(rules[..k], rules[1..], outs[1..]);
    }
    RedirectIsNotExemption(uid, port, dport);
    assert left != [] && left[0] == OwnerReturn(uid);
    ExposedStep(left, uid, port, dport);
  }

  /** The reordered chain of FailedDeleteReorders sends goper's own port-443 traffic to itself. */
  lemma ReorderedChainLoops(uid: int, port: int, says: Rule -> Verdict)
    requires forall r :: r in GoperRules(uid, port) ==> says(r) == GoperVerdict(r, Packet(uid, 443))
    ensures var rules := GoperRules(uid, port);
            Traverse([rules[2], rules[0], rules[1]], says) == RedirectTo(Itoa(port))
  {
    RuleVerdicts(uid, port, Packet(uid, 443));
    assert GoperRules(uid, port)[2] in GoperRules(uid, port);
  }
}
