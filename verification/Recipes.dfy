/** Versioned recipes with effective dates (backend/apps/menu/services.py and models.py). */
module Recipes {
  import opened Prelude
  import opened Ledger

  type Date = int

  datatype VersionStatus = Draft | Review | Published | Retired

  /** One ingredient; the quantity per serving is in thousandths of the recipe unit. */
  datatype RecipeLine = RecipeLine(product: ProductId, qtyPerServing: int)

  datatype Version = Version(status: VersionStatus, from: Option<Date>, to: Option<Date>, lines: seq<RecipeLine>)

  /** All versions of one menu item; the version at index i has `version_no` i + 1. */
  type History = seq<Version>

  predicate Live(v: Version) { v.status.Published? || v.status.Retired? }

  /** The version answers for date `d`: from inclusive, to exclusive. */
  predicate Covers(v: Version, d: Date) {
    Live(v) && v.from.Some? && v.from.value <= d && (v.to.None? || d < v.to.value)
  }

  /** `RecipeVersion.active_for`: the covering version with the highest number. */
  function ActiveFor(vs: History, d: Date): Option<nat> {
    if vs == [] then None
    else
      var n := |vs| - 1;
      if Covers(vs[n], d) then Some(n) else ActiveFor(vs[..n], d)
  }

  /** The published version with the highest number, other than `except`. */
  function CurrentPublished(vs: History, except: nat): (current: Option<nat>)
    ensures current.Some? ==>
      current.value < |vs| && current.value != except && vs[current.value].status.Published?
    ensures current.None? ==> forall i :: 0 <= i < |vs| && i != except ==> !vs[i].status.Published?
  {
    if vs == [] then None
    else
      var n := |vs| - 1;
      if n != except && vs[n].status.Published? then Some(n) else CurrentPublished(vs[..n], except)
  }

  predicate ValidRecipe(lines: seq<RecipeLine>) {
    && (forall i, j :: 0 <= i < j < |lines| ==> lines[i].product != lines[j].product)
    && (forall i :: 0 <= i < |lines| ==> lines[i].qtyPerServing > 0)
  }

  /** The check constraint on the effective window. */
  predicate WindowValid(v: Version) {
    v.to.None? || v.from.None? || v.from.value < v.to.value
  }

  function CreateVersion(vs: History, lines: seq<RecipeLine>): Result<History> {
    if lines == [] then Err(EmptyLines)
    else if !ValidRecipe(lines) then Err(ConstraintViolation)
    else Ok(vs + [Version(Draft, None, None, lines)])
  }

  function SubmitForReview(vs: History, i: nat): Result<History> {
    if i >= |vs| then Err(NotFound)
    else if !vs[i].status.Draft? then Err(InvalidState)
    else Ok(vs[i := vs[i].(status := Review)])
  }

  /** The version that `publish_version` retires, as it would be stored. */
  function Retire(v: Version, effectiveFrom: Date): Version {
    v.(to := Some(effectiveFrom), status := Retired)
  }

  function Publish(vs: History, i: nat, effectiveFrom: Option<Date>): Result<History> {
    if i >= |vs| then Err(NotFound)
    else if !vs[i].status.Draft? && !vs[i].status.Review? then Err(InvalidState)
    else if effectiveFrom.None? then Err(InvalidInput)
    else
      var e := effectiveFrom.value;
      var current := CurrentPublished(vs, i);
      if current.Some? && !WindowValid(Retire(vs[current.value], e)) then Err(ConstraintViolation)
      else
        var retired := if current.Some? then vs[current.value := Retire(vs[current.value], e)] else vs;
        Ok(retired[i := retired[i].(status := Published, from := Some(e), to := None)])
  }

  // ----- the chain of effective windows -----

  /** `u`'s window closes no later than `v`'s opens. */
  predicate Before(u: Version, v: Version) {
    u.to.Some? && v.from.Some? && u.to.value <= v.from.value
  }

  predicate WindowShape(v: Version) {
    match v.status
    case Published => v.from.Some? && v.to.None?
    case Retired => v.from.Some? && v.to.Some? && v.from.value < v.to.value
    case _ => v.from.None? && v.to.None?
  }

  /** Some version takes over on the day this one ends. */
  predicate HasSuccessor(vs: History, i: nat)
    requires i < |vs|
  {
    exists j :: 0 <= j < |vs| && Live(vs[j]) && vs[j].from == vs[i].to
  }

  /** Live windows are disjoint and gap-free, and the last one is the published version. */
  ghost predicate Chain(vs: History) {
    && (forall i :: 0 <= i < |vs| ==> WindowShape(vs[i]) && vs[i].lines != [] && ValidRecipe(vs[i].lines))
    && (forall i, j :: 0 <= i < |vs| && 0 <= j < |vs| && i != j && Live(vs[i]) && Live(vs[j]) ==>
          Before(vs[i], vs[j]) || Before(vs[j], vs[i]))
    && (forall i :: 0 <= i < |vs| && vs[i].status.Retired? ==> HasSuccessor(vs, i))
  }

  /** At most one version is published: two open-ended windows would overlap. */
  lemma OnePublished(vs: History, i: nat, j: nat)
    requires Chain(vs) && i < |vs| && j < |vs|
    requires vs[i].status.Published? && vs[j].status.Published?
    ensures i == j
  {
    assert Live(vs[i]) && Live(vs[j]);
  }

  lemma {:induction false} ActiveForCovers(vs: History, d: Date)
    ensures var a := ActiveFor(vs, d);
      && (a.Some? ==> a.value < |vs| && Covers(vs[a.value], d))
      && (a.None? ==> forall i :: 0 <= i < |vs| ==> !Covers(vs[i], d))
  {
    if vs != [] {
      var n := |vs| - 1;
      ActiveForCovers(vs[..n], d);
      assert forall i :: 0 <= i < n ==> vs[..n][i] == vs[i];
    }
  }

  /** `active_for` names the one version whose window covers the date. */
  lemma {:induction false} ResolutionIsUnique(vs: History, d: Date, i: nat)
    requires Chain(vs) && i < |vs|
    ensures ActiveFor(vs, d) == Some(i) <==> Covers(vs[i], d)
  {
    ActiveForCovers(vs, d);
    if Covers(vs[i], d) {
      assert Live(vs[i]) && Live(vs[ActiveFor(vs, d).value]);
    }
  }

  /** From the first publication on, every date resolves. */
  lemma {:induction false} NoGaps(vs: History, d: Date, i: nat)
    requires Chain(vs) && i < |vs| && Live(vs[i]) && vs[i].from.value <= d
    ensures ActiveFor(vs, d).Some?
    decreases d - vs[i].from.value
  {
    ActiveForCovers(vs, d);
    if !Covers(vs[i], d) {
      assert HasSuccessor(vs, i);
      var j :| 0 <= j < |vs| && Live(vs[j]) && vs[j].from == vs[i].to;
      NoGaps(vs, d, j);
    }
  }

  /** Once anything has been published, exactly one version is published. */
  lemma {:induction false} LastIsPublished(vs: History, i: nat, horizon: Date)
    requires Chain(vs) && i < |vs| && Live(vs[i])
    requires forall j :: 0 <= j < |vs| && Live(vs[j]) ==> vs[j].from.value <= horizon
    ensures exists j :: 0 <= j < |vs| && vs[j].status.Published?
    decreases horizon - vs[i].from.value
  {
    if !vs[i].status.Published? {
      assert HasSuccessor(vs, i);
      var j :| 0 <= j < |vs| && Live(vs[j]) && vs[j].from == vs[i].to;
      LastIsPublished(vs, j, horizon);
    }
  }

  lemma {:induction false} Horizon(vs: History) returns (horizon: Date)
    ensures forall j :: 0 <= j < |vs| && Live(vs[j]) && vs[j].from.Some? ==> vs[j].from.value <= horizon
  {
    if vs == [] {
      horizon := 0;
    } else {
      var n := |vs| - 1;
      horizon := Horizon(vs[..n]);
      assert forall i :: 0 <= i < n ==> vs[..n][i] == vs[i];
      if vs[n].from.Some? && horizon < vs[n].from.value {
        horizon := vs[n].from.value;
      }
    }
  }

  /** With no published version, nothing has ever been published. */
  lemma NonePublishedNoneLive(vs: History)
    requires Chain(vs) && forall j :: 0 <= j < |vs| ==> !vs[j].status.Published?
    ensures forall j :: 0 <= j < |vs| ==> !Live(vs[j])
  {
    var horizon := Horizon(vs);
    forall j | 0 <= j < |vs|
      ensures !Live(vs[j])
    {
      if Live(vs[j]) {
        LastIsPublished(vs, j, horizon);
      }
    }
  }

  // ----- publication -----

  /** Publishing fails exactly on a missing, live or undated version, or when the version it
      would retire did not start strictly earlier. */
  lemma PublishAbortsIff(vs: History, i: nat, effectiveFrom: Option<Date>)
    requires Chain(vs)
    ensures Publish(vs, i, effectiveFrom).Err? <==>
      || i >= |vs|
      || Live(vs[i])
      || effectiveFrom.None?
      || exists j :: 0 <= j < |vs| && vs[j].status.Published? && effectiveFrom.value <= vs[j].from.value
  {
    if i < |vs| && !Live(vs[i]) && effectiveFrom.Some? {
      var current := CurrentPublished(vs, i);
      if current.Some? {
        forall j | 0 <= j < |vs| && vs[j].status.Published?
          ensures j == current.value
        {
          OnePublished(vs, j, current.value);
        }
      }
    }
  }

  /** Every other live version has ended by the time the published one starts. */
  lemma {:induction false} PublishedIsLast(vs: History, c: nat)
    requires Chain(vs) && c < |vs| && vs[c].status.Published?
    ensures forall j :: 0 <= j < |vs| && j != c && Live(vs[j]) ==>
      vs[j].status.Retired? && vs[j].to.value <= vs[c].from.value
  {
    forall j | 0 <= j < |vs| && j != c && Live(vs[j])
      ensures vs[j].status.Retired? && vs[j].to.value <= vs[c].from.value
    {
      assert Live(vs[c]) && Before(vs[j], vs[c]);
    }
  }

  lemma {:induction false} PublishKeepsChain(vs: History, i: nat, effectiveFrom: Option<Date>)
    requires Chain(vs) && Publish(vs, i, effectiveFrom).Ok?
    ensures Chain(Publish(vs, i, effectiveFrom).value)
    ensures forall j :: 0 <= j < |vs| && Live(vs[j]) ==> vs[j].from.value < effectiveFrom.value
  {
    var vs' := Publish(vs, i, effectiveFrom).value;
    var e := effectiveFrom.value;
    var current := CurrentPublished(vs, i);
    if current.None? {
      NonePublishedNoneLive(vs);
    } else {
      var c := current.value;
      PublishedIsLast(vs, c);
      forall j | 0 <= j < |vs| && vs'[j].status.Retired?
        ensures HasSuccessor(vs', j)
      {
        if j == c {
          assert Live(vs'[i]) && vs'[i].from == vs'[c].to;
        } else {
          assert HasSuccessor(vs, j);
          var k :| 0 <= k < |vs| && Live(vs[k]) && vs[k].from == vs[j].to;
          assert Live(vs'[k]) && vs'[k].from == vs'[j].to;
        }
      }
    }
  }

  /** Publishing from `e` leaves the resolution of every earlier date alone and takes over
      every date from `e` on. */
  lemma PublishPreservesHistory(vs: History, i: nat, effectiveFrom: Option<Date>, d: Date)
    requires Chain(vs) && Publish(vs, i, effectiveFrom).Ok?
    ensures var vs' := Publish(vs, i, effectiveFrom).value;
      ActiveFor(vs', d) == if d < effectiveFrom.value then ActiveFor(vs, d) else Some(i)
  {
    var vs' := Publish(vs, i, effectiveFrom).value;
    PublishKeepsChain(vs, i, effectiveFrom);
    PublishCovers(vs, i, effectiveFrom, d);
    if effectiveFrom.value <= d {
      ResolutionIsUnique(vs', d, i);
    } else {
      SameCover(vs, vs', d);
    }
  }

  /** The published version covers every day from `e` on; before `e` every version covers what it did. */
  lemma {:induction false} PublishCovers(vs: History, i: nat, effectiveFrom: Option<Date>, d: Date)
    requires Chain(vs) && Publish(vs, i, effectiveFrom).Ok?
    ensures var vs' := Publish(vs, i, effectiveFrom).value;
      && |vs'| == |vs| && i < |vs|
      && if d < effectiveFrom.value then forall j :: 0 <= j < |vs| ==> Covers(vs'[j], d) == Covers(vs[j], d) else Covers(vs'[i], d)
  {
  }

  /** Two chains with the same covering versions resolve alike. */
  lemma {:induction false} SameCover(vs: History, vs': History, d: Date)
    requires Chain(vs) && Chain(vs') && |vs| <= |vs'|
    requires forall i :: 0 <= i < |vs'| ==> Covers(vs'[i], d) == (i < |vs| && Covers(vs[i], d))
    ensures ActiveFor(vs', d) == ActiveFor(vs, d)
  {
    ActiveForCovers(vs, d);
    ActiveForCovers(vs', d);
    if ActiveFor(vs, d).Some? {
      ResolutionIsUnique(vs', d, ActiveFor(vs, d).value);
    }
  }

  lemma {:induction false} OtherStepsKeepChain(vs: History, lines: seq<RecipeLine>, i: nat)
    requires Chain(vs)
    ensures CreateVersion(vs, lines).Ok? ==> Chain(CreateVersion(vs, lines).value)
    ensures SubmitForReview(vs, i).Ok? ==> Chain(SubmitForReview(vs, i).value)
  {
    if CreateVersion(vs, lines).Ok? {
      var vs' := CreateVersion(vs, lines).value;
      forall j | 0 <= j < |vs'| && vs'[j].status.Retired?
        ensures HasSuccessor(vs', j)
      {
        assert HasSuccessor(vs, j);
        var k :| 0 <= k < |vs| && Live(vs[k]) && vs[k].from == vs[j].to;
        assert Live(vs'[k]) && vs'[k].from == vs'[j].to;
      }
    }
    if SubmitForReview(vs, i).Ok? {
      var vs' := SubmitForReview(vs, i).value;
      forall j | 0 <= j < |vs'| && vs'[j].status.Retired?
        ensures HasSuccessor(vs', j)
      {
        assert HasSuccessor(vs, j);
        var k :| 0 <= k < |vs| && Live(vs[k]) && vs[k].from == vs[j].to;
        assert Live(vs'[k]) && vs'[k].from == vs'[j].to;
      }
    }
  }

  /** No menu step ever edits the lines of an existing version. */
  predicate Extends(vs: History, vs': History) {
    |vs| <= |vs'| && forall i :: 0 <= i < |vs| ==> vs'[i].lines == vs[i].lines
  }
}
