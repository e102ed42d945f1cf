/** Helpers of the code-migration assistant: keeping the migration-plan
    section of a notebook up to date, and checking call arguments against
    a function's signature. */
module Migration {
  import opened Strings

  /** The heading that opens the migration-plan section. */
  const PlanHeading := "## Migration Plan:"

  /** `create_or_update_plan`: the tool takes the plan as it is given. */
  function CreateOrUpdatePlan(newPlan: string): (r: string)
    ensures r == newPlan
  {
    newPlan
  }

  /** `update_migration_plan(existing_content, new_content)`. */
  function UpdateMigrationPlan(existing: string, newContent: string): string {
    var start := Find(existing, PlanHeading);
    if start == -1 then existing
    else Strip(existing[..start]) + "\n" + PlanHeading + "\n" + Strip(newContent)
  }

  /** Appending a newline to a stripped string and stripping again gives
      it back. */
  lemma StripNewline(x: string)
    ensures Strip(Strip(x) + "\n") == Strip(x)
  {
    var b := Strip(x);
    StripEnds(x);
    var t := b + "\n";
    if b == [] {
      assert LStripWith(t, IsSpace) == LStripWith(t[1..], IsSpace);
      assert t[1..] == [];
    } else {
      assert t[0] == b[0];
      assert LStripWith(t, IsSpace) == t;
      assert t[..|t| - 1] == b;
      assert RStripWith(t, IsSpace) == RStripWith(b, IsSpace);
    }
  }

  /** A heading placed after a heading-free text and a newline is the
      first heading. */
  lemma {:induction false} HeadingAfter(b: string, rest: string)
    requires !Contains(b, PlanHeading)
    ensures Find(b + "\n" + PlanHeading + rest, PlanHeading) == |b| + 1
  {
    var h := PlanHeading;
    var r := b + "\n" + h + rest;
    assert r[|b|] == '\n';
    assert OccursAt(r, h, |b| + 1) by {
      assert r[|b| + 1..|b| + 1 + |h|] == h;
    }
    forall j | 0 <= j <= |b| ensures !OccursAt(r, h, j) {
      if j + |h| > |b| {
        assert j + |h| <= |r| ==> r[j..j + |h|][|b| - j] == '\n';
        assert h[|b| - j] != '\n';
      } else {
        assert r[j..j + |h|] == b[j..j + |h|];
        assert !OccursAt(b, h, j);
      }
    }
  }

  /** Stripping cannot create a heading. */
  lemma {:induction false} StripNoHeading(e: string)
    requires !Contains(e, PlanHeading)
    ensures !Contains(Strip(e), PlanHeading)
  {
    var h := PlanHeading;
    var b := Strip(e);
    StripIsInfix(e);
    var lo, hi :| Trimmed(e, lo, hi) && b == e[lo..hi];
    forall j | 0 <= j && j + |h| <= |b| ensures !OccursAt(b, h, j) {
      assert lo + j + |h| <= hi <= |e|;
      var x, y := b[j..j + |h|], e[lo + j..lo + j + |h|];
      assert |x| == |y| && forall k :: 0 <= k < |x| ==> x[k] == y[k];
      assert !OccursAt(e, h, lo + j);
    }
  }

  /** Where the heading is found in an updated plan: right after the
      stripped text that came before the first heading, and a newline. */
  lemma UpdatedHeadingAt(existing: string, newContent: string)
    requires Find(existing, PlanHeading) >= 0
    ensures var b := Strip(existing[..Find(existing, PlanHeading)]);
            Find(UpdateMigrationPlan(existing, newContent), PlanHeading) == |b| + 1
  {
    var i := Find(existing, PlanHeading);
    var e := existing[..i];
    forall j | 0 <= j && j + |PlanHeading| <= |e| ensures !OccursAt(e, PlanHeading, j) {
      assert e[j..j + |PlanHeading|] == existing[j..j + |PlanHeading|];
      assert !OccursAt(existing, PlanHeading, j);
    }
    StripNoHeading(e);
    HeadingAfter(Strip(e), "\n" + Strip(newContent));
    assert UpdateMigrationPlan(existing, newContent) == Strip(e) + "\n" + PlanHeading + ("\n" + Strip(newContent));
  }

  /** `update_migration_plan` leaves content without a plan heading alone.
      Otherwise the result keeps, up to outer whitespace, the text before
      the first heading, and everything from that heading on is replaced
      by the heading line and the stripped new plan. */
  lemma UpdateMigrationPlanFacts(existing: string, newContent: string)
    ensures !Contains(existing, PlanHeading) ==> UpdateMigrationPlan(existing, newContent) == existing
    ensures Contains(existing, PlanHeading) ==>
              var r := UpdateMigrationPlan(existing, newContent);
              var j := Find(r, PlanHeading);
              Contains(r, PlanHeading) && 1 <= j
              && Strip(r[..j]) == Strip(existing[..Find(existing, PlanHeading)])
              && r[j..] == PlanHeading + "\n" + Strip(newContent)
  {
    if Contains(existing, PlanHeading) {
      var i := Find(existing, PlanHeading);
      var b := Strip(existing[..i]);
      var r := UpdateMigrationPlan(existing, newContent);
      UpdatedHeadingAt(existing, newContent);
      assert r[..|b| + 1] == b + "\n";
      StripNewline(existing[..i]);
    }
  }

  /** Updating twice with the same new plan is updating once. */
  lemma UpdateMigrationPlanIdempotent(existing: string, newContent: string)
    ensures UpdateMigrationPlan(UpdateMigrationPlan(existing, newContent), newContent) == UpdateMigrationPlan(existing, newContent)
  {
    if Contains(existing, PlanHeading) {
      var i := Find(existing, PlanHeading);
      var b := Strip(existing[..i]);
      var r := UpdateMigrationPlan(existing, newContent);
      UpdatedHeadingAt(existing, newContent);
      assert r[..|b| + 1] == b + "\n";
      StripNewline(existing[..i]);
      StripIdempotent(newContent);
    }
  }

  // ===========================================================================
  // check_args
  // ===========================================================================

  /** One parameter of `inspect.signature(function)`: its name and whether
      it has a default value. */
  datatype Param = Param(name: string, hasDefault: bool)

  function Names(params: seq<Param>): (ns: seq<string>)
    ensures |ns| == |params|
    ensures forall i :: 0 <= i < |params| ==> ns[i] == params[i].name
  {
    if params == [] then [] else [params[0].name] + Names(params[1..])
  }

  /** The first loop of `check_args`, from argument `k` on: false at the
      first argument name that is not a parameter. */
  function ArgsKnown(params: seq<Param>, args: seq<string>, k: nat): bool
    decreases |args| - k
  {
    if k >= |args| then true
    else if args[k] !in Names(params) then false
    else ArgsKnown(params, args, k + 1)
  }

  /** The second loop, from parameter `k` on: false at the first parameter
      without a default that is not among the arguments. */
  function RequiredGiven(params: seq<Param>, args: seq<string>, k: nat): bool
    decreases |params| - k
  {
    if k >= |params| then true
    else if !params[k].hasDefault && params[k].name !in args then false
    else RequiredGiven(params, args, k + 1)
  }

  /** `check_args(function, args)` for a function with signature `params`
      called with keyword arguments named `args`. */
  function CheckArgs(params: seq<Param>, args: seq<string>): bool {
    ArgsKnown(params, args, 0) && RequiredGiven(params, args, 0)
  }

  lemma {:induction false} ArgsKnownIff(params: seq<Param>, args: seq<string>, k: nat)
    ensures ArgsKnown(params, args, k) <==> forall i :: k <= i < |args| ==> args[i] in Names(params)
    decreases |args| - k
  {
    if k < |args| {
      ArgsKnownIff(params, args, k + 1);
    }
  }

  lemma {:induction false} RequiredGivenIff(params: seq<Param>, args: seq<string>, k: nat)
    ensures RequiredGiven(params, args, k) <==> forall i :: k <= i < |params| ==> params[i].hasDefault || params[i].name in args
    decreases |params| - k
  {
    if k < |params| {
      RequiredGivenIff(params, args, k + 1);
    }
  }

  /** `check_args` holds exactly when every argument names a parameter and
      every parameter without a default is given. */
  lemma CheckArgsIff(params: seq<Param>, args: seq<string>)
    ensures CheckArgs(params, args) <==>
              (forall a :: a in args ==> a in Names(params))
              && (forall i :: 0 <= i < |params| ==> params[i].hasDefault || params[i].name in args)
  {
    ArgsKnownIff(params, args, 0);
    RequiredGivenIff(params, args, 0);
  }
}
