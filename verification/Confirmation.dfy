/**
 * Exactly when a reconciliation of rpc-src/create-reconciler.ts confirms, told by the record, the receipt
 * and the tables, and exactly what it leaves otherwise.
 */
module Confirmation {
  import opened Wrappers
  import opened Addresses
  import opened ChainState
  import opened AddressMap
  import opened Journal
  import opened Planner
  import opened Reconciler

  // ---- The creations of a receipt ----

  /** How many of the first `k` internal transactions are creations. */
  function CreateNotes(internals: seq<Internal>, k: nat): nat
    requires k <= |internals|
  {
    if k == 0 then 0 else CreateNotes(internals, k - 1) + if internals[k - 1].note == CreateNote then 1 else 0
  }

  /** Its note is intact, and a creation has a creator and, unless it was rejected, a contract. */
  predicate Intact(t: Internal) {
    t.note != MalformedNote && (t.note == CreateNote ==> NonZero(t.caller) && (t.rejected || NonZero(t.created)))
  }

  /** These are the creations among the first `k` internal transactions, all of them and in their order. */
  predicate Lists(internals: seq<Internal>, k: nat, creations: seq<Creation>)
    requires k <= |internals|
  {
    && |creations| == CreateNotes(internals, k)
    && forall i :: 0 <= i < k && internals[i].note == CreateNote ==>
         && CreateNotes(internals, i) < |creations|
         && creations[CreateNotes(internals, i)] == Creation(internals[i].caller, internals[i].created, !internals[i].rejected)
  }

  lemma {:induction false} CreationsExact(internals: seq<Internal>, k: nat)
    requires k <= |internals|
    ensures Creations(internals, k).Ok? <==> forall i :: 0 <= i < k ==> Intact(internals[i])
    ensures Creations(internals, k).Ok? ==> Lists(internals, k, Creations(internals, k).value)
  {
    if k > 0 {
      CreationsExact(internals, k - 1);
      assert Creations(internals, k).Ok? <==> Creations(internals, k - 1).Ok? && Intact(internals[k - 1]);
    }
  }

  /** Every receipt lists exactly one sequence of creations. */
  lemma {:induction false} ListsUnique(internals: seq<Internal>, k: nat, a: seq<Creation>, b: seq<Creation>)
    requires k <= |internals| && Lists(internals, k, a) && Lists(internals, k, b)
    ensures a == b
  {
    if k > 0 {
      NotesBelow(internals, k);
      if internals[k - 1].note == CreateNote {
        ListsUnique(internals, k - 1, a[..|a| - 1], b[..|b| - 1]);
      } else {
        ListsUnique(internals, k - 1, a, b);
      }
    }
  }

  lemma {:induction false} NotesGrow(internals: seq<Internal>, i: nat, k: nat)
    requires i <= k <= |internals|
    ensures CreateNotes(internals, i) <= CreateNotes(internals, k)
  {
    if i < k {
      NotesGrow(internals, i, k - 1);
    }
  }

  lemma NotesBelow(internals: seq<Internal>, k: nat)
    requires 0 < k <= |internals|
    ensures forall i :: 0 <= i < k - 1 && internals[i].note == CreateNote ==> CreateNotes(internals, i) < CreateNotes(internals, k - 1)
  {
    forall i | 0 <= i < k - 1 && internals[i].note == CreateNote ensures CreateNotes(internals, i) < CreateNotes(internals, k - 1) {
      NotesGrow(internals, i + 1, k - 1);
    }
  }

  // ---- Plan and receipt, attempt by attempt ----

  /** The last of the first `i` attempts that succeed at this predicted address. */
  predicate LastAt(plan: Plan, i: nat, j: nat, predicted: Address)
    requires i <= |plan.attempts|
  {
    && j < i && plan.attempts[j].success && plan.attempts[j].predictedAddress == predicted
    && forall k :: j < k < i && plan.attempts[k].success ==> plan.attempts[k].predictedAddress != predicted
  }

  predicate CreatedBefore(plan: Plan, i: nat, predicted: Address)
    requires i <= |plan.attempts|
  {
    exists j :: 0 <= j < i && plan.attempts[j].success && plan.attempts[j].predictedAddress == predicted
  }

  /** Who a planned caller is before anything is created: the target, the sender, or the table's entry. */
  predicate Standing(c: Chain, x: Context, plan: Plan, predicted: Address, actual: Address)
    requires ValidContext(x)
  {
    if predicted == PredictedRoot(x) then actual == x.actualTarget
    else if predicted == plan.sender then actual == plan.sender
    else predicted in c.byPredicted && c.byPredicted[predicted].actual == actual
  }

  /** Who a planned caller is when the `i`-th attempt is made: what this receipt created there last, if anything. */
  predicate Appears(c: Chain, x: Context, plan: Plan, creations: seq<Creation>, i: nat, predicted: Address, actual: Address)
    requires ValidContext(x) && i <= |plan.attempts| == |creations|
  {
    if CreatedBefore(plan, i, predicted) then exists j :: 0 <= j < i && LastAt(plan, i, j, predicted) && creations[j].actual == actual
    else Standing(c, x, plan, predicted, actual)
  }

  /** The receipt's creation at `i` is the planned attempt: same success, the planned caller, and in exact mode the simulated addresses. */
  predicate AgreesAt(c: Chain, x: Context, plan: Plan, creations: seq<Creation>, i: nat)
    requires ValidContext(x) && i < |plan.attempts| == |creations|
  {
    var a, b := plan.attempts[i], creations[i];
    && a.success == b.success && Appears(c, x, plan, creations, i, a.predictedCaller, b.caller)
    && (plan.mode == ExactSigned ==> a.actualCaller == b.caller && a.simulatedActual == b.actual)
  }

  predicate CallsBefore(plan: Plan, k: nat, predicted: Address)
    requires k <= |plan.attempts|
  {
    exists n :: 0 <= n < k && plan.attempts[n].predictedCaller == predicted
  }

  lemma {:induction false} SeedsExact(c: Chain, x: Context, plan: Plan, k: nat, p: Address)
    requires ValidContext(x) && k <= |plan.attempts|
    ensures p in Seeds(c, x, plan, k) <==>
              p == plan.sender || p == PredictedRoot(x) || (p in c.byPredicted && CallsBefore(plan, k, p))
    ensures p in Seeds(c, x, plan, k) ==> Standing(c, x, plan, p, Seeds(c, x, plan, k)[p])
  {
    hide ValidContext;
    if k > 0 {
      SeedsExact(c, x, plan, k - 1, p);
      assert CallsBefore(plan, k, p) <==> CallsBefore(plan, k - 1, p) || plan.attempts[k - 1].predictedCaller == p;
    }
  }

  lemma StandingUnique(c: Chain, x: Context, plan: Plan, p: Address, a: Address, b: Address)
    requires ValidContext(x) && Standing(c, x, plan, p, a) && Standing(c, x, plan, p, b)
    ensures a == b
  {
  }

  lemma SeededStanding(c: Chain, x: Context, plan: Plan, p: Address, a: Address)
    requires ValidContext(x) && CallsBefore(plan, |plan.attempts|, p)
    ensures var seeds := Seeds(c, x, plan, |plan.attempts|);
            (p in seeds && seeds[p] == a) <==> Standing(c, x, plan, p, a)
  {
    SeedsExact(c, x, plan, |plan.attempts|, p);
    var seeds := Seeds(c, x, plan, |plan.attempts|);
    hide ValidContext, Seeds, CallsBefore;
    if p in seeds && Standing(c, x, plan, p, a) {
      StandingUnique(c, x, plan, p, a, seeds[p]);
    }
  }

  /** The table of expected addresses says exactly who each planned caller is. */
  lemma {:induction false} MatchedAppears(c: Chain, x: Context, plan: Plan, creations: seq<Creation>, k: nat, p: Address, a: Address)
    requires ValidContext(x) && k <= |plan.attempts| == |creations| && CallsBefore(plan, |plan.attempts|, p)
    requires Matched(Seeds(c, x, plan, |plan.attempts|), plan, creations, k).Some?
    ensures var shown := Matched(Seeds(c, x, plan, |plan.attempts|), plan, creations, k).value;
            (p in shown && shown[p] == a) <==> Appears(c, x, plan, creations, k, p, a)
  {
    hide ValidContext, AttemptMatches, Standing, CallsBefore;
    if k == 0 {
      SeededStanding(c, x, plan, p, a);
    } else {
      MatchedAppears(c, x, plan, creations, k - 1, p, a);
      AppearsStep(c, x, plan, creations, k, p, a);
      hide Appears, Seeds;
    }
  }

  lemma AppearsStep(c: Chain, x: Context, plan: Plan, creations: seq<Creation>, k: nat, p: Address, a: Address)
    requires ValidContext(x) && 0 < k <= |plan.attempts| == |creations|
    ensures Appears(c, x, plan, creations, k, p, a) <==>
            if plan.attempts[k - 1].success && plan.attempts[k - 1].predictedAddress == p then creations[k - 1].actual == a
            else Appears(c, x, plan, creations, k - 1, p, a)
  {
    hide ValidContext, Standing;
    var last := plan.attempts[k - 1];
    if last.success && last.predictedAddress == p {
      assert LastAt(plan, k, k - 1, p);
      assert forall j :: 0 <= j < k && LastAt(plan, k, j, p) ==> j == k - 1;
    } else {
      assert CreatedBefore(plan, k, p) <==> CreatedBefore(plan, k - 1, p);
      assert forall j :: 0 <= j < k ==> (LastAt(plan, k, j, p) <==> j < k - 1 && LastAt(plan, k - 1, j, p));
    }
  }

  lemma AttemptAgrees(c: Chain, x: Context, plan: Plan, creations: seq<Creation>, k: nat)
    requires ValidContext(x) && k < |plan.attempts| == |creations|
    requires Matched(Seeds(c, x, plan, |plan.attempts|), plan, creations, k).Some?
    ensures AttemptMatches(plan.mode, plan.attempts[k], creations[k], Matched(Seeds(c, x, plan, |plan.attempts|), plan, creations, k).value)
            <==> AgreesAt(c, x, plan, creations, k)
  {
    assert CallsBefore(plan, |plan.attempts|, plan.attempts[k].predictedCaller);
    MatchedAppears(c, x, plan, creations, k, plan.attempts[k].predictedCaller, creations[k].caller);
    hide ValidContext, Seeds, Appears, CallsBefore, Matched;
  }

  /** The walk over plan and receipt succeeds exactly when they agree at every attempt. */
  lemma {:induction false} MatchedExact(c: Chain, x: Context, plan: Plan, creations: seq<Creation>, k: nat)
    requires ValidContext(x) && k <= |plan.attempts| == |creations|
    ensures Matched(Seeds(c, x, plan, |plan.attempts|), plan, creations, k).Some?
            <==> forall i :: 0 <= i < k ==> AgreesAt(c, x, plan, creations, i)
  {
    hide ValidContext, Seeds, AgreesAt, AttemptMatches;
    if k > 0 {
      MatchedExact(c, x, plan, creations, k - 1);
      if Matched(Seeds(c, x, plan, |plan.attempts|), plan, creations, k - 1).Some? {
        AttemptAgrees(c, x, plan, creations, k - 1);
      }
    }
  }

  // ---- What the tables allow to be published ----

  /** One address to publish, with its metadata if it has any. */
  datatype Entry = Entry(mapping: Mapping, metadata: Option<ChildMetadata>)

  /** The entry is new to the tables, or there word for word. */
  predicate FitsTables(c: Chain, e: Entry) {
    var m := e.mapping;
    && Canonical(m)
    && (m.predicted in c.byPredicted ==> c.byPredicted[m.predicted] == m)
    && (m.actual in c.byActual ==> c.byActual[m.actual] == m.predicted)
    && (e.metadata.Some? && m.predicted in c.metadata ==> c.metadata[m.predicted] == ToMetadata(m, e.metadata.value))
  }

  /** Two entries are about different addresses on both sides, or they say the same. */
  predicate FitTogether(e: Entry, f: Entry) {
    && (e.mapping.predicted == f.mapping.predicted ==>
          e.mapping == f.mapping && (e.metadata.Some? && f.metadata.Some? ==> e.metadata == f.metadata))
    && (e.mapping.actual == f.mapping.actual ==> e.mapping.predicted == f.mapping.predicted)
  }

  lemma PublishExact(c: Chain, e: Entry)
    requires IndexesValid(c) && MetadataValid(c)
    ensures Publish(c, e.mapping, e.metadata).Ok? <==> FitsTables(c, e)
    ensures Publish(c, e.mapping, e.metadata).Ok? ==> MetadataValid(Publish(c, e.mapping, e.metadata).value)
  {
    SetMappingExact(c, e.mapping);
    FoundAgain(c, e.mapping);
    if SetMapping(c, e.mapping).Ok? {
      SetMappingAdds(c, e.mapping);
      if e.metadata.Some? {
        SetMetadataExact(SetMapping(c, e.mapping).value, ToMetadata(e.mapping, e.metadata.value));
      }
    }
    hide IndexesValid, SetMapping, SetMetadata, Canonical, KeyedMetadata;
  }

  /** In inverse tables a mapping's actual address leads back to it. */
  lemma FoundAgain(c: Chain, m: Mapping)
    requires IndexesValid(c)
    ensures m.predicted in c.byPredicted && c.byPredicted[m.predicted] == m ==> m.actual in c.byActual && c.byActual[m.actual] == m.predicted
    ensures m.predicted !in c.byPredicted && m.actual in c.byActual ==> c.byActual[m.actual] != m.predicted
  {
  }

  lemma SetMetadataExact(c: Chain, m: Metadata)
    requires IndexesValid(c) && m.predicted in c.byPredicted && KeyedMetadata(c.metadata) && c.metadata.Keys <= c.byPredicted.Keys
    requires NonZero(m.predicted)
    ensures SetMetadata(c, m).Ok? <==> (m.predicted in c.metadata ==> c.metadata[m.predicted] == m)
    ensures SetMetadata(c, m).Ok? ==> MetadataValid(SetMetadata(c, m).value)
  {
    hide IndexesValid;
  }

  /** After an entry is published, another one fits if it fitted before and fits together with it. */
  lemma FitsAfter(c: Chain, e: Entry, f: Entry)
    requires Publish(c, e.mapping, e.metadata).Ok? && FitsTables(c, e)
    ensures FitsTables(Publish(c, e.mapping, e.metadata).value, f) <==> FitsTables(c, f) && FitTogether(e, f)
  {
    PublishAdds(c, e.mapping, e.metadata);
    var d := Publish(c, e.mapping, e.metadata).value;
    hide Publish, OnlyPublishes, IndexesValid;
    FitsAfterAdding(c, d, e, f);
  }

  lemma FitsAfterAdding(c: Chain, d: Chain, e: Entry, f: Entry)
    requires FitsTables(c, e)
    requires var m := e.mapping;
             && d.byPredicted == c.byPredicted[m.predicted := m] && d.byActual == c.byActual[m.actual := m.predicted]
             && d.metadata == if e.metadata.None? then c.metadata else c.metadata[m.predicted := ToMetadata(m, e.metadata.value)]
    ensures FitsTables(d, f) <==> FitsTables(c, f) && FitTogether(e, f)
  {
    hide Canonical;
  }

  function ChildEntry(r: Record, a: Attempt, b: Creation): Entry
    requires r.plan.Some?
  {
    Entry(ChildMapping(r, a, b), a.metadata)
  }

  lemma {:induction false} FitsAfterChildren(c: Chain, r: Record, planned: seq<Attempt>, created: seq<Creation>, k: nat, f: Entry)
    requires r.plan.Some? && k <= |planned| <= |created| && IndexesValid(c) && MetadataValid(c)
    requires PublishChildren(c, r, planned, created, k).Ok?
    ensures var d := PublishChildren(c, r, planned, created, k).value;
            && IndexesValid(d) && MetadataValid(d)
            && (FitsTables(d, f) <==>
                  FitsTables(c, f) && forall j :: 0 <= j < k ==> FitTogether(ChildEntry(r, planned[j], created[j]), f))
  {
    hide IndexesValid, MetadataValid, Publish, FitsTables, FitTogether;
    if k > 0 {
      FitsAfterChildren(c, r, planned, created, k - 1, f);
      var b := PublishChildren(c, r, planned, created, k - 1).value;
      var e := ChildEntry(r, planned[k - 1], created[k - 1]);
      PublishExact(b, e);
      PublishAdds(b, e.mapping, e.metadata);
      FitsAfter(b, e, f);
    }
  }

  predicate ChildFits(c: Chain, r: Record, planned: seq<Attempt>, created: seq<Creation>, j: nat)
    requires r.plan.Some? && j < |planned| <= |created|
  {
    && FitsTables(c, ChildEntry(r, planned[j], created[j]))
    && forall i :: 0 <= i < j ==> FitTogether(ChildEntry(r, planned[i], created[i]), ChildEntry(r, planned[j], created[j]))
  }

  /** Children are published exactly when each fits the tables and any two fit together. */
  lemma {:induction false} ChildrenExact(c: Chain, r: Record, planned: seq<Attempt>, created: seq<Creation>, k: nat)
    requires r.plan.Some? && k <= |planned| <= |created| && IndexesValid(c) && MetadataValid(c)
    ensures PublishChildren(c, r, planned, created, k).Ok? <==> forall j :: 0 <= j < k ==> ChildFits(c, r, planned, created, j)
  {
    hide IndexesValid, MetadataValid, Publish, FitsTables, FitTogether;
    if k > 0 {
      ChildrenExact(c, r, planned, created, k - 1);
      if PublishChildren(c, r, planned, created, k - 1).Ok? {
        var b := PublishChildren(c, r, planned, created, k - 1).value;
        var e := ChildEntry(r, planned[k - 1], created[k - 1]);
        FitsAfterChildren(c, r, planned, created, k - 1, e);
        PublishExact(b, e);
        assert PublishChildren(c, r, planned, created, k).Ok? <==> ChildFits(c, r, planned, created, k - 1);
      }
    }
  }

  // ---- Everything a confirmation publishes ----

  /** The entry of the deployed contract itself. */
  function DeploymentEntry(r: Record): Entry
    requires r.context.Some? && ValidContext(r.context.value) && r.context.value.kind == Deployment
  {
    var x := r.context.value;
    Entry(Mapping(x.predictedContract.value, x.actualTarget, x.from, x.from, r.hash),
          if x.contractKind.None? then None else Some(ChildMetadata(x.contractKind.value, x.identity.value)))
  }

  /** The attempt at `i` succeeded: its entry fits the tables and whatever is published before it. */
  predicate EntryFits(c: Chain, r: Record, creations: seq<Creation>, i: nat)
    requires r.context.Some? && ValidContext(r.context.value) && r.plan.Some? && i < |r.plan.value.attempts| == |creations|
  {
    var attempts := r.plan.value.attempts;
    var e := ChildEntry(r, attempts[i], creations[i]);
    && FitsTables(c, e)
    && (r.context.value.kind == Deployment ==> FitTogether(DeploymentEntry(r), e))
    && forall j :: 0 <= j < i && attempts[j].success ==> FitTogether(ChildEntry(r, attempts[j], creations[j]), e)
  }

  predicate Publishable(c: Chain, r: Record, creations: seq<Creation>)
    requires r.context.Some? && ValidContext(r.context.value) && r.plan.Some? && |r.plan.value.attempts| == |creations|
  {
    && (r.context.value.kind == Deployment ==> FitsTables(c, DeploymentEntry(r)))
    && forall i :: 0 <= i < |creations| && r.plan.value.attempts[i].success ==> EntryFits(c, r, creations, i)
  }

  lemma DeploymentExact(c: Chain, r: Record)
    requires r.context.Some? && ValidContext(r.context.value) && IndexesValid(c) && MetadataValid(c)
    ensures PublishDeployment(c, r).Ok? <==> (r.context.value.kind == Deployment ==> FitsTables(c, DeploymentEntry(r)))
    ensures PublishDeployment(c, r).Ok? ==>
              IndexesValid(PublishDeployment(c, r).value) && MetadataValid(PublishDeployment(c, r).value)
  {
    if r.context.value.kind == Deployment {
      PublishExact(c, DeploymentEntry(r));
      if FitsTables(c, DeploymentEntry(r)) {
        PublishAdds(c, DeploymentEntry(r).mapping, DeploymentEntry(r).metadata);
      }
    }
    hide IndexesValid, MetadataValid, Publish, FitsTables, OnlyPublishes;
  }

  lemma FitsAfterDeployment(c: Chain, r: Record, f: Entry)
    requires r.context.Some? && ValidContext(r.context.value) && IndexesValid(c) && MetadataValid(c)
    requires PublishDeployment(c, r).Ok?
    ensures FitsTables(PublishDeployment(c, r).value, f)
            <==> FitsTables(c, f) && (r.context.value.kind == Deployment ==> FitTogether(DeploymentEntry(r), f))
  {
    DeploymentExact(c, r);
    if r.context.value.kind == Deployment {
      FitsAfter(c, DeploymentEntry(r), f);
    }
    hide IndexesValid, MetadataValid, Publish, FitsTables, FitTogether;
  }

  /** A child fits at its place in the filtered lists exactly if it fits at its position in the plan. */
  lemma ChildFitsExact(c: Chain, deployed: Chain, r: Record, creations: seq<Creation>, i: nat)
    requires r.context.Some? && ValidContext(r.context.value) && r.plan.Some? && IndexesValid(c) && MetadataValid(c)
    requires SameSuccesses(r.plan.value.attempts, creations) && i < |creations| && creations[i].success
    requires PublishDeployment(c, r) == Ok(deployed)
    ensures var planned, created := Succeeded(r.plan.value.attempts), Created(creations);
            var j := Rank(r.plan.value.attempts, i);
            && j < |planned| == |created|
            && (ChildFits(deployed, r, planned, created, j) <==> EntryFits(c, r, creations, i))
  {
    var attempts := r.plan.value.attempts;
    var planned, created := Succeeded(attempts), Created(creations);
    var j := Rank(attempts, i);
    SuccessesAlign(attempts, creations, i);
    FitsAfterDeployment(c, r, ChildEntry(r, attempts[i], creations[i]));
    hide IndexesValid, MetadataValid, FitsTables, FitTogether, PublishDeployment, ValidContext;
    if ChildFits(deployed, r, planned, created, j) {
      forall n | 0 <= n < i && attempts[n].success
        ensures FitTogether(ChildEntry(r, attempts[n], creations[n]), ChildEntry(r, attempts[i], creations[i]))
      {
        SuccessesAlign(attempts, creations, n);
        RankGrows(attempts, n, i);
      }
    }
    if EntryFits(c, r, creations, i) {
      forall m | 0 <= m < j ensures FitTogether(ChildEntry(r, planned[m], created[m]), ChildEntry(r, planned[j], created[j])) {
        var n := SuccessAt(attempts, m);
        SuccessesAlign(attempts, creations, n);
        if i <= n { RankGrows(attempts, i, n); }
      }
    }
  }

  lemma {:induction false} RankGrows(attempts: seq<Attempt>, i: nat, k: nat)
    requires i <= k <= |attempts|
    ensures Rank(attempts, i) <= Rank(attempts, k)
    ensures i < k && attempts[i].success ==> Rank(attempts, i) < Rank(attempts, k)
  {
    if i < k {
      RankGrows(attempts, i, k - 1);
      assert attempts[..k][..k - 1] == attempts[..k - 1];
    }
  }

  /** What is planned is published exactly when it is publishable. */
  lemma PublicationExact(c: Chain, deployed: Chain, r: Record, creations: seq<Creation>)
    requires r.context.Some? && ValidContext(r.context.value) && r.plan.Some? && IndexesValid(c) && MetadataValid(c)
    requires SameSuccesses(r.plan.value.attempts, creations) && PublishDeployment(c, r) == Ok(deployed)
    ensures var planned, created := Succeeded(r.plan.value.attempts), Created(creations);
            PublishChildren(deployed, r, planned, created, |planned|).Ok? <==> Publishable(c, r, creations)
  {
    var attempts := r.plan.value.attempts;
    var planned, created := Succeeded(attempts), Created(creations);
    DeploymentExact(c, r);
    SuccessesCount(attempts, creations);
    ChildrenExact(deployed, r, planned, created, |planned|);
    hide IndexesValid, MetadataValid, FitsTables, PublishDeployment, PublishChildren, ValidContext, EntryFits, ChildFits;
    if forall j :: 0 <= j < |planned| ==> ChildFits(deployed, r, planned, created, j) {
      forall i | 0 <= i < |creations| && attempts[i].success ensures EntryFits(c, r, creations, i) {
        ChildFitsExact(c, deployed, r, creations, i);
      }
    }
    if Publishable(c, r, creations) {
      forall j | 0 <= j < |planned| ensures ChildFits(deployed, r, planned, created, j) {
        var i := SuccessAt(attempts, j);
        ChildFitsExact(c, deployed, r, creations, i);
      }
    }
  }

  // ---- The whole reconciliation ----

  /** The receipt reports this very transaction's success, about the target it was built for. */
  predicate ReportsSuccess(r: Record, receipt: Receipt)
    requires r.context.Some? && r.native.Some?
  {
    var x := r.context.value;
    && receipt.successful && receipt.source == r.hash && receipt.from == x.from && receipt.nativeId == r.native.value.id
    && (x.kind == Deployment ==>
          && receipt.to.None? && x.predictedContract.Some? && receipt.contractAddress == x.predictedContract
          && receipt.actualContract == Some(x.actualTarget))
    && (x.kind == Call ==>
          && x.to.Some? && receipt.to == x.to && receipt.contractAddress.None?
          && (receipt.actualContract == None || receipt.actualContract == Some(x.actualTarget)))
  }

  /** Everything a confirmation needs; `creations` are the creations the receipt lists. */
  predicate Confirmable(c: Chain, r: Record, receipt: Receipt, creations: seq<Creation>)
    requires r.context.Some? && ValidContext(r.context.value) && r.native.Some? && r.plan.Some?
  {
    var plan := r.plan.value;
    && ReportsSuccess(r, receipt)
    && (forall i :: 0 <= i < |receipt.internals| ==> Intact(receipt.internals[i]))
    && |plan.attempts| == |creations|
    && (forall i :: 0 <= i < |creations| ==> AgreesAt(c, r.context.value, plan, creations, i))
    && (forall a :: a in plan.finals ==> NextNonce(c, a) >= plan.finals[a])
    && Publishable(c, r, creations)
  }

  lemma SuccessMeans(r: Record, receipt: Receipt)
    requires r.context.Some? && r.native.Some?
    ensures ReportsSuccess(r, receipt) <==> TopLevelMatches(r, receipt) && receipt.nativeId == r.native.value.id
  {
  }

  lemma ConfirmedAccepted(env: Env, c: Chain, published: Chain, r: Record, receipt: Receipt)
    requires AwaitsReceipt(env, c, r) && JournalValid(env, c.records) && published.records == c.records
    ensures RecordConfirmed(env, published, r.hash, receipt).Ok?
  {
    hide JournalValid, ValidPreparation;
  }

  lemma PublishingExact(env: Env, c: Chain, r: Record, receipt: Receipt, creations: seq<Creation>)
    requires AwaitsReceipt(env, c, r) && JournalValid(env, c.records) && IndexesValid(c) && MetadataValid(c)
    requires SameSuccesses(r.plan.value.attempts, creations)
    ensures PublishedAndConfirmed(env, c, r, receipt, creations).Ok? <==> Publishable(c, r, creations)
  {
    var planned, created := Succeeded(r.plan.value.attempts), Created(creations);
    DeploymentExact(c, r);
    hide IndexesValid, MetadataValid, FitsTables, PublishDeployment, PublishChildren, ValidContext, EntryFits, RecordConfirmed,
         JournalValid, ValidPlan, ValidRecord, Succeeded, Created;
    if PublishDeployment(c, r).Ok? {
      var deployed := PublishDeployment(c, r).value;
      PublicationExact(c, deployed, r, creations);
      if PublishChildren(deployed, r, planned, created, |planned|).Ok? {
        var published := PublishChildren(deployed, r, planned, created, |planned|).value;
        SameJournal(c, deployed, published, r, planned, created);
        ConfirmedAccepted(env, c, published, r, RewriteInternals(receipt, published.byActual));
      }
    }
  }

  lemma SameJournal(c: Chain, deployed: Chain, published: Chain, r: Record, planned: seq<Attempt>, created: seq<Creation>)
    requires r.context.Some? && ValidContext(r.context.value) && r.plan.Some? && IndexesValid(c)
    requires PublishDeployment(c, r) == Ok(deployed) && PublishChildren(deployed, r, planned, created, |planned|) == Ok(published)
    ensures published.records == c.records
  {
    DeploymentPublished(c, r);
    ChildrenPublished(deployed, r, planned, created, |planned|);
    hide PublishDeployment, PublishChildren, IndexesValid, Extends, PairPublished;
  }

  lemma AgreeingSuccesses(c: Chain, x: Context, plan: Plan, creations: seq<Creation>)
    requires ValidContext(x) && |plan.attempts| == |creations|
    requires forall i :: 0 <= i < |creations| ==> AgreesAt(c, x, plan, creations, i)
    ensures SameSuccesses(plan.attempts, creations)
  {
    forall i | 0 <= i < |creations| ensures plan.attempts[i].success == creations[i].success {
      assert AgreesAt(c, x, plan, creations, i);
    }
  }

  /**
   * A reconciliation confirms exactly when the receipt is the transaction's own and intact, its creations
   * are the planned attempts one for one, no counter is below what was reserved, and what there is to
   * publish fits the tables and itself.
   */
  lemma ReconcileExact(env: Env, c: Chain, r: Record, receipt: Receipt, creations: seq<Creation>)
    requires AwaitsReceipt(env, c, r) && JournalValid(env, c.records) && TablesValid(c) && CountersValid(c)
    requires Lists(receipt.internals, |receipt.internals|, creations)
    ensures ReconcileRecord(env, c, r, receipt).Ok? <==> Confirmable(c, r, receipt, creations)
  {
    var x, plan, n := r.context.value, r.plan.value, |receipt.internals|;
    SuccessMeans(r, receipt);
    CreationsExact(receipt.internals, n);
    if Creations(receipt.internals, n).Ok? {
      ListsUnique(receipt.internals, n, Creations(receipt.internals, n).value, creations);
    }
    hide TopLevelMatches, ReportsSuccess, Creations, Lists, Intact, IndexesValid, MetadataValid, SnapshotsValid, DescriptorsValid,
         BaselinesValid, ValidPlan, ValidContext, JournalValid, ValidRecord, Seeds, Matched, AgreesAt, Publishable, PublishedAndConfirmed;
    if |plan.attempts| == |creations| {
      MatchedExact(c, x, plan, creations, |creations|);
      if forall i :: 0 <= i < |creations| ==> AgreesAt(c, x, plan, creations, i) {
        AgreeingSuccesses(c, x, plan, creations);
        PublishingExact(env, c, r, receipt, creations);
      }
    }
  }

  lemma {:induction false} CreationsListed(internals: seq<Internal>, k: nat) returns (creations: seq<Creation>)
    requires k <= |internals|
    ensures Lists(internals, k, creations)
  {
    if k == 0 {
      creations := [];
    } else {
      var earlier := CreationsListed(internals, k - 1);
      var t := internals[k - 1];
      creations := if t.note == CreateNote then earlier + [Creation(t.caller, t.created, !t.rejected)] else earlier;
    }
  }

  /** The error a refused receipt is answered with, by the first thing that is wrong with it. */
  lemma ReconcileErrors(env: Env, c: Chain, r: Record, receipt: Receipt, creations: seq<Creation>)
    requires AwaitsReceipt(env, c, r) && TablesValid(c) && CountersValid(c)
    requires Lists(receipt.internals, |receipt.internals|, creations)
    ensures var e, plan := ReconcileRecord(env, c, r, receipt), r.plan.value;
            var intact := forall i :: 0 <= i < |receipt.internals| ==> Intact(receipt.internals[i]);
            if !ReportsSuccess(r, receipt.(nativeId := r.native.value.id)) then e == Err(TopLevelMismatch)
            else if receipt.nativeId != r.native.value.id then e == Err(CreateMismatch)
            else if !intact then e == Err(CreateMismatch) || e == Err(InvalidTrace)
            else if |plan.attempts| != |creations| then e == Err(CreateMismatch)
            else if exists i :: 0 <= i < |creations| && !AgreesAt(c, r.context.value, plan, creations, i) then e == Err(CreateMismatch)
            else (exists a :: a in plan.finals && NextNonce(c, a) < plan.finals[a]) <==> e == Err(CounterConflict)
  {
    var x, plan, n := r.context.value, r.plan.value, |receipt.internals|;
    SuccessMeans(r, receipt.(nativeId := r.native.value.id));
    CreationsExact(receipt.internals, n);
    if Creations(receipt.internals, n).Ok? {
      ListsUnique(receipt.internals, n, Creations(receipt.internals, n).value, creations);
    } else {
      CreationErrors(receipt.internals, n);
    }
    hide ReportsSuccess, Creations, Lists, Intact, IndexesValid, MetadataValid, SnapshotsValid, DescriptorsValid,
         BaselinesValid, ValidPlan, ValidContext, ValidRecord, Seeds, Matched, AgreesAt, Publishable, PublishedAndConfirmed;
    if |plan.attempts| == |creations| {
      MatchedExact(c, x, plan, creations, |creations|);
      OtherErrors(env, c, r, receipt);
    }
  }

  /** The receipt and nothing else of it changes: each internal transaction shows its parties as the table names them. */
  predicate KeptAs(d: Chain, receipt: Receipt, kept: Receipt) {
    && kept == receipt.(internals := kept.internals) && |kept.internals| == |receipt.internals|
    && forall t :: 0 <= t < |kept.internals| ==>
         && kept.internals[t] == receipt.internals[t].(caller := kept.internals[t].caller, created := kept.internals[t].created)
         && NamedAs(d, receipt.internals[t].caller, kept.internals[t].caller)
         && NamedAs(d, receipt.internals[t].created, kept.internals[t].created)
  }

  predicate NamedAs(d: Chain, actual: Address, shown: Address) {
    if actual in d.byActual then shown == d.byActual[actual] else shown == actual
  }

  /** The record is confirmed with its receipt and keeps everything else. */
  predicate ConfirmedWith(d: Chain, r: Record, receipt: Receipt) {
    && r.hash in d.records && d.records[r.hash].receipt.Some?
    && d.records[r.hash] == r.(state := Confirmed, receipt := d.records[r.hash].receipt)
    && KeptAs(d, receipt, d.records[r.hash].receipt.value)
  }

  lemma ConfirmedReceipt(env: Env, c: Chain, r: Record, receipt: Receipt)
    requires AwaitsReceipt(env, c, r) && ReconcileRecord(env, c, r, receipt).Ok?
    ensures ConfirmedWith(ReconcileRecord(env, c, r, receipt).value, r, receipt)
  {
    ReconcileConfirms(env, c, r, receipt);
    hide ReconcileRecord, AwaitsReceipt, OnlyPublishes, IndexesValid, TablesValid, TopLevelMatches, DeploymentDescribed;
  }

  /**
   * What a reconciliation leaves and answers, whatever it is asked: a finished record answers for itself;
   * a broadcast one is confirmed when everything fits, and otherwise fails with its receipt kept, under
   * the error the caller sees; anything else is refused and nothing changes.
   */
  lemma ReconcileOutcome(env: Env, c: Chain, hash: Hash, receipt: Receipt, creations: seq<Creation>)
    requires JournalValid(env, c.records) && TablesValid(c) && CountersValid(c)
    requires Lists(receipt.internals, |receipt.internals|, creations)
    ensures var o := Reconcile(env, c, hash, receipt);
            if hash !in c.records then o == Outcome(c, Some(UnknownTransaction))
            else
              var r := c.records[hash];
              match r.state
              case Confirmed => o == Outcome(c, None)
              case Failed => o == Outcome(c, r.failure)
              case Broadcast =>
                && AwaitsReceipt(env, c, r)
                && if Confirmable(c, r, receipt, creations) then o.error.None? && ConfirmedWith(o.chain, r, receipt)
                   else && o.error.Some?
                        && o.chain == Put(c, r.(state := Failed, failure := o.error, receipt := Some(receipt)))
              case _ => o == Outcome(c, Some(IllegalTransition))
  {
    hide ReconcileRecord, ValidPreparation, TablesValid, CountersValid, Confirmable, Lists, ConfirmedWith;
    if hash in c.records {
      var r := c.records[hash];
      RecordAt(env, c, hash);
      hide JournalValid;
      if r.state == Broadcast {
        ReconcileExact(env, c, r, receipt, creations);
        if ReconcileRecord(env, c, r, receipt).Ok? {
          ConfirmedReceipt(env, c, r, receipt);
        }
      }
    }
  }
}
