/**
 Rendering the catalog into model objects and pruning what it no longer lists
 (internal/controller/agentgatewaycatalog_controller.go).
 */
module Models {
  import opened Common

  const UPSTREAM_SUFFIX: string := "-upstream"

  /** One catalog entry; an empty credential key or base URL is an absent one. */
  datatype CatalogModel = CatalogModel(
    name: string,
    provider: string,
    model: string,
    secretName: string,
    secretKey: string,
    baseURL: string)
  {
    function CredentialKey(): string {
      if secretKey != "" then secretKey else "api-key"
    }
  }

  datatype Spec =
    | Internal(provider: string, model: string, secretName: string, secretKey: string, baseURL: Option<string>)
    | Alias(match_: string, target: string)
    | Foreign(text: string)

  datatype Object = Object(labels: map<string, string>, spec: Spec) {
    predicate Managed() {
      MANAGED_BY_LABEL in labels && labels[MANAGED_BY_LABEL] == MANAGED_BY_VALUE
    }
  }

  type Store = map<string, Object>

  function UpstreamName(name: string): string {
    name + UPSTREAM_SUFFIX
  }

  function InternalSpec(e: CatalogModel): Spec {
    Internal(e.provider, e.model, e.secretName, e.CredentialKey(), if e.baseURL != "" then Some(e.baseURL) else None)
  }

  function AliasSpec(e: CatalogModel): Spec {
    Alias(e.name, UpstreamName(e.name))
  }

  // ----- What a pass does, as functions -----

  function LabelsAt(models: Store, name: string): map<string, string> {
    if name in models then models[name].labels else map[]
  }

  function Marked(labels: map<string, string>): map<string, string> {
    labels[MANAGED_BY_LABEL := MANAGED_BY_VALUE]
  }

  /** Replaces the spec, keeps every other label. */
  function Put(models: Store, name: string, spec: Spec): Store {
    models[name := Object(Marked(LabelsAt(models, name)), spec)]
  }

  function PutInternal(models: Store, e: CatalogModel): Store {
    Put(models, UpstreamName(e.name), InternalSpec(e))
  }

  function PutPair(models: Store, e: CatalogModel): Store {
    Put(PutInternal(models, e), e.name, AliasSpec(e))
  }

  function PutPairs(models: Store, catalog: seq<CatalogModel>): Store {
    if catalog == [] then models
    else PutPair(PutPairs(models, catalog[..|catalog| - 1]), catalog[|catalog| - 1])
  }

  /** The store after the first `k` of a pass's writes. */
  function FirstWrites(models: Store, catalog: seq<CatalogModel>, k: nat): Store
    requires k <= 2 * |catalog|
  {
    var pairs := PutPairs(models, catalog[..k / 2]);
    if k % 2 == 0 then pairs else PutInternal(pairs, catalog[k / 2])
  }

  function ExpectedNames(catalog: seq<CatalogModel>): set<string> {
    if catalog == [] then {}
    else
      var e := catalog[|catalog| - 1];
      ExpectedNames(catalog[..|catalog| - 1]) + {e.name, UpstreamName(e.name)}
  }

  function ManagedNames(models: Store): set<string> {
    set n | n in models && models[n].Managed()
  }

  /** The managed models a catalog does not account for. */
  function Strays(models: Store, expected: set<string>): set<string> {
    ManagedNames(models) - expected
  }

  function Render(models: Store, catalog: seq<CatalogModel>): Store {
    var written := PutPairs(models, catalog);
    written - Strays(written, ExpectedNames(catalog))
  }

  /** Some of the strays are gone and nothing else is. */
  ghost predicate PartlyPruned(before: Store, expected: set<string>, after: Store) {
    exists gone :: gone <= Strays(before, expected) && after == before - gone
  }

  /** A pass cut short: some of the writes, or all of them and some of the deletions. */
  ghost predicate Partial(before: Store, catalog: seq<CatalogModel>, after: Store) {
    || (exists k: nat :: k <= 2 * |catalog| && after == FirstWrites(before, catalog, k))
    || PartlyPruned(PutPairs(before, catalog), ExpectedNames(catalog), after)
  }

  // ----- The reconciler -----

  /** How the list call before pruning ends. */
  datatype Listing = Listed | KindMissing | ListFails

  class Reconciler {
    var models: Store
    var writesLeft: nat     // calls that succeed before the first failure

    constructor (initial: Store, writesLeft: nat)
      ensures models == initial && this.writesLeft == writesLeft
    {
      models := initial;
      this.writesLeft := writesLeft;
    }

    method ApplyModel(name: string, spec: Spec) returns (ok: bool)
      modifies this
      ensures ok <==> old(writesLeft) > 0
      ensures ok ==> writesLeft == old(writesLeft) - 1 && models == Put(old(models), name, spec)
      ensures !ok ==> writesLeft == 0 && models == old(models)
    {
      if writesLeft == 0 {
        return false;
      }
      writesLeft := writesLeft - 1;
      if name !in models {
        models := models[name := Object(map[MANAGED_BY_LABEL := MANAGED_BY_VALUE], spec)];
        return true;
      }
      var live := models[name];
      live := live.(spec := spec);
      live := live.(labels := live.labels[MANAGED_BY_LABEL := MANAGED_BY_VALUE]);
      models := models[name := live];
      return true;
    }

    /** Ends as Render says when the calls last; otherwise at the first failure. */
    method RenderModels(catalog: seq<CatalogModel>, listing: Listing) returns (ok: bool)
      modifies this
      ensures ok && listing.Listed? ==> models == Render(old(models), catalog)
      ensures ok && listing.KindMissing? ==> models == PutPairs(old(models), catalog)
      ensures old(writesLeft) < 2 * |catalog| ==>
                !ok && models == FirstWrites(old(models), catalog, old(writesLeft))
      ensures Partial(old(models), catalog, models)
      ensures listing.ListFails? ==> !ok
      ensures ok || listing.ListFails? ||
              old(writesLeft) < 2 * |catalog| + |Strays(PutPairs(old(models), catalog), ExpectedNames(catalog))|
    {
      ok := WritePairs(catalog);
      if !ok {
        return false;
      }
      ok := PruneModels(catalog, listing);
    }

    /** The internal model, then the alias an attendee addresses. */
    method EnsurePair(e: CatalogModel) returns (ok: bool)
      modifies this
      ensures ok <==> old(writesLeft) >= 2
      ensures ok ==> writesLeft == old(writesLeft) - 2 && models == PutPair(old(models), e)
      ensures old(writesLeft) == 1 ==> models == PutInternal(old(models), e)
      ensures old(writesLeft) == 0 ==> models == old(models)
    {
      ok := ApplyModel(UpstreamName(e.name), InternalSpec(e));
      if ok {
        ok := ApplyModel(e.name, AliasSpec(e));
      }
    }

    method WritePairs(catalog: seq<CatalogModel>) returns (ok: bool)
      modifies this
      ensures ok <==> 2 * |catalog| <= old(writesLeft)
      ensures ok ==> writesLeft == old(writesLeft) - 2 * |catalog| && models == PutPairs(old(models), catalog)
      ensures !ok ==> models == FirstWrites(old(models), catalog, old(writesLeft))
    {
      ghost var was, start := models, writesLeft;
      for i := 0 to |catalog|
        invariant writesLeft == start - 2 * i
        invariant models == PutPairs(was, catalog[..i])
      {
        var done := EnsurePair(catalog[i]);
        if !done {
          FirstWritesAre(was, catalog, i, start);
          return false;
        }
        PutPairsNext(was, catalog, i);
      }
      assert catalog[..|catalog|] == catalog;
      return true;
    }

    method PruneModels(catalog: seq<CatalogModel>, listing: Listing) returns (ok: bool)
      modifies this
      ensures ok && listing.Listed? ==> models == old(models) - Strays(old(models), ExpectedNames(catalog))
      ensures listing.KindMissing? ==> ok && models == old(models)
      ensures listing.ListFails? ==> !ok && models == old(models)
      ensures PartlyPruned(old(models), ExpectedNames(catalog), models)
      ensures ok || listing.ListFails? || old(writesLeft) < |Strays(old(models), ExpectedNames(catalog))|
    {
      assert models == models - {};
      match listing {
        case KindMissing => return true;
        case ListFails => return false;
        case Listed =>
      }
      var expected: set<string> := {};
      for i := 0 to |catalog|
        invariant expected == ExpectedNames(catalog[..i])
      {
        expected := expected + {catalog[i].name, UpstreamName(catalog[i].name)};
        assert catalog[..i + 1][..i] == catalog[..i];
      }
      assert catalog[..|catalog|] == catalog;
      ghost var gone;
      ok, gone := DeleteUnexpected(ManagedNames(models), expected);
      assert PartlyPruned(old(models), expected, models);
    }

    method DeleteUnexpected(listed: set<string>, expected: set<string>) returns (ok: bool, ghost gone: set<string>)
      modifies this
      ensures gone <= listed - expected && models == old(models) - gone
      ensures ok ==> gone == listed - expected
      ensures ok || old(writesLeft) < |listed - expected|
    {
      ghost var was, strays, start := models, listed - expected, writesLeft;
      gone := {};
      var left := listed;
      assert was - gone == was;
      while left != {}
        invariant gone <= strays <= gone + left
        invariant forall n | n in left && n !in expected :: n in strays && n !in gone
        invariant models == was - gone
        invariant writesLeft + |gone| == start
        decreases |left|
      {
        var n :| n in left;
        if n in expected {
          left := left - {n};
          continue;
        }
        if writesLeft == 0 {
          ProperSubsetIsSmaller(gone, strays, n);
          return false, gone;
        }
        writesLeft := writesLeft - 1;
        models := models - {n};
        left := left - {n};
        MinusTwice(was, gone, {n});
        gone := gone + {n};
      }
      return true, gone;
    }
  }

  lemma FirstWritesAre(models: Store, catalog: seq<CatalogModel>, i: nat, k: nat)
    requires i < |catalog| && 2 * i <= k <= 2 * i + 1
    ensures FirstWrites(models, catalog, k) ==
            var pairs := PutPairs(models, catalog[..i]);
            if k == 2 * i then pairs else PutInternal(pairs, catalog[i])
  {
    assert k / 2 == i;
  }

  lemma PutPairsNext(models: Store, catalog: seq<CatalogModel>, i: nat)
    requires i < |catalog|
    ensures PutPairs(models, catalog[..i + 1]) == PutPair(PutPairs(models, catalog[..i]), catalog[i])
  {
    assert catalog[..i + 1][..i] == catalog[..i];
  }

  // ----- The result, name by name -----

  /** The spec the last write under a name leaves there. */
  function Last(catalog: seq<CatalogModel>, name: string): Option<Spec> {
    if catalog == [] then None
    else
      var e := catalog[|catalog| - 1];
      if name == e.name then Some(AliasSpec(e))
      else if name == UpstreamName(e.name) then Some(InternalSpec(e))
      else Last(catalog[..|catalog| - 1], name)
  }

  lemma PutPairAt(models: Store, e: CatalogModel, n: string)
    ensures var after := PutPair(models, e);
            if n == e.name then n in after && after[n] == Object(Marked(LabelsAt(models, n)), AliasSpec(e))
            else if n == UpstreamName(e.name)
            then n in after && after[n] == Object(Marked(LabelsAt(models, n)), InternalSpec(e))
            else (n in after <==> n in models) && (n in models ==> after[n] == models[n])
  {
    UpstreamInjective(e.name, e.name);
  }

  lemma {:induction false} PutPairsAt(models: Store, catalog: seq<CatalogModel>, name: string)
    ensures match Last(catalog, name)
            case None => (name in PutPairs(models, catalog) <==> name in models)
                         && (name in models ==> PutPairs(models, catalog)[name] == models[name])
            case Some(spec) =>
              && name in PutPairs(models, catalog)
              && PutPairs(models, catalog)[name] == Object(Marked(LabelsAt(models, name)), spec)
  {
    if catalog != [] {
      var before := PutPairs(models, catalog[..|catalog| - 1]);
      PutPairsAt(models, catalog[..|catalog| - 1], name);
      PutPairAt(before, catalog[|catalog| - 1], name);
    }
  }

  /** Only the expected names are written, and all of them. */
  lemma {:induction false} WrittenNames(catalog: seq<CatalogModel>, name: string)
    ensures Last(catalog, name).Some? <==> name in ExpectedNames(catalog)
  {
    if catalog != [] {
      WrittenNames(catalog[..|catalog| - 1], name);
    }
  }

  lemma {:induction false} ExpectedNamesAre(catalog: seq<CatalogModel>, name: string)
    ensures name in ExpectedNames(catalog) <==>
            exists e :: e in catalog && (name == e.name || name == UpstreamName(e.name))
  {
    if catalog != [] {
      var init, e := catalog[..|catalog| - 1], catalog[|catalog| - 1];
      ExpectedNamesAre(init, name);
      assert catalog == init + [e];
    }
  }

  lemma RenderAt(models: Store, catalog: seq<CatalogModel>, name: string)
    ensures match Last(catalog, name)
            case None =>
              && name !in ExpectedNames(catalog)
              && (name in Render(models, catalog) <==> name in models && !models[name].Managed())
              && (name in Render(models, catalog) ==> Render(models, catalog)[name] == models[name])
            case Some(spec) =>
              && name in ExpectedNames(catalog)
              && name in Render(models, catalog)
              && Render(models, catalog)[name] == Object(Marked(LabelsAt(models, name)), spec)
  {
    PutPairsAt(models, catalog, name);
    WrittenNames(catalog, name);
  }

  // ----- Main results -----

  /** From any prior store, the managed names are exactly a pair for each entry. */
  lemma ManagedNamesAreThePairs(models: Store, catalog: seq<CatalogModel>)
    ensures forall n :: (n in Render(models, catalog) && Render(models, catalog)[n].Managed()) <==>
              exists e :: e in catalog && (n == e.name || n == e.name + "-upstream")
  {
    forall n
      ensures (n in Render(models, catalog) && Render(models, catalog)[n].Managed()) <==>
              exists e :: e in catalog && (n == e.name || n == e.name + "-upstream")
    {
      RenderAt(models, catalog, n);
      ExpectedNamesAre(catalog, n);
    }
  }

  /** A model that is taken over or rendered again keeps every label but the operator's. */
  lemma OtherLabelsStay(models: Store, catalog: seq<CatalogModel>, n: string, other: string)
    requires n in models && n in Render(models, catalog) && other != MANAGED_BY_LABEL
    ensures var after := Render(models, catalog)[n].labels;
            && (other in after <==> other in models[n].labels)
            && (other in after ==> after[other] == models[n].labels[other])
  {
    RenderAt(models, catalog, n);
  }

  predicate DistinctNames(catalog: seq<CatalogModel>) {
    forall i, j | 0 <= i < j < |catalog| :: catalog[i].name != catalog[j].name
  }

  /** An attendee addressing the entry's name is sent to exactly what the entry declares. */
  predicate Resolves(models: Store, e: CatalogModel) {
    && e.name in models
    && models[e.name].spec.Alias?
    && models[e.name].spec.match_ == e.name
    && models[e.name].spec.target in models
    && var upstream := models[models[e.name].spec.target].spec;
       && upstream.Internal?
       && upstream.provider == e.provider
       && upstream.model == e.model
       && upstream.secretName == e.secretName
       && upstream.secretKey == (if e.secretKey == "" then "api-key" else e.secretKey)
       && upstream.baseURL == (if e.baseURL == "" then None else Some(e.baseURL))
  }

  predicate Collide(a: string, b: string) {
    a == b + UPSTREAM_SUFFIX || b == a + UPSTREAM_SUFFIX
  }

  predicate NoLaterCollision(catalog: seq<CatalogModel>, i: nat)
    requires i < |catalog|
  {
    forall j | i < j < |catalog| :: !Collide(catalog[i].name, catalog[j].name)
  }

  lemma UpstreamInjective(a: string, b: string)
    ensures UpstreamName(a) == UpstreamName(b) <==> a == b
    ensures UpstreamName(a) != a
  {
    assert UpstreamName(a)[..|UpstreamName(a)| - |UPSTREAM_SUFFIX|] == a;
    assert UpstreamName(b)[..|UpstreamName(b)| - |UPSTREAM_SUFFIX|] == b;
  }

  lemma {:induction false} AliasesPointAtTheirPair(catalog: seq<CatalogModel>, name: string)
    ensures var s := Last(catalog, name);
            s.Some? ==> s.value.Internal? || s.value == Alias(name, UpstreamName(name))
  {
    if catalog != [] {
      AliasesPointAtTheirPair(catalog[..|catalog| - 1], name);
    }
  }

  /** Both objects of a pair are still what the entry wrote. */
  predicate PairStands(catalog: seq<CatalogModel>, e: CatalogModel) {
    && Last(catalog, e.name) == Some(AliasSpec(e))
    && Last(catalog, UpstreamName(e.name)) == Some(InternalSpec(e))
  }

  predicate PairBroken(catalog: seq<CatalogModel>, e: CatalogModel) {
    var alias, upstream := Last(catalog, e.name), Last(catalog, UpstreamName(e.name));
    alias.Some? && upstream.Some? && (alias.value.Internal? || upstream.value.Alias?)
  }

  lemma {:induction false} PairStandsUnless(catalog: seq<CatalogModel>, i: nat)
    requires DistinctNames(catalog) && i < |catalog|
    ensures if NoLaterCollision(catalog, i) then PairStands(catalog, catalog[i])
            else PairBroken(catalog, catalog[i])
    decreases |catalog|
  {
    var e, n := catalog[i], |catalog| - 1;
    UpstreamInjective(e.name, catalog[n].name);
    WrittenNames(catalog, e.name);
    ExpectedNamesAre(catalog, e.name);
    WrittenNames(catalog, UpstreamName(e.name));
    ExpectedNamesAre(catalog, UpstreamName(e.name));
    if i < n {
      PairStandsUnless(catalog[..n], i);
      assert forall j | i < j < n :: catalog[..n][j] == catalog[j];
    }
  }

  /**
   An entry resolves to its own provider, model, credential and address exactly
   when no later entry's name is this one's plus "-upstream", or the other way round.
   Of two colliding entries the later one wins.
   */
  lemma ResolvesUnlessALaterNameCollides(models: Store, catalog: seq<CatalogModel>, i: nat)
    requires DistinctNames(catalog) && i < |catalog|
    ensures Resolves(Render(models, catalog), catalog[i]) <==>
            NoLaterCollision(catalog, i)
  {
    var e := catalog[i];
    PairStandsUnless(catalog, i);
    RenderAt(models, catalog, e.name);
    RenderAt(models, catalog, UpstreamName(e.name));
    AliasesPointAtTheirPair(catalog, e.name);
    if NoLaterCollision(catalog, i) {
      assert PairStands(catalog, e);
    } else {
      assert PairBroken(catalog, e);
    }
  }

  /** The whole catalog resolves exactly when no name is another plus "-upstream". */
  lemma AllResolveIffNoneCollide(models: Store, catalog: seq<CatalogModel>)
    requires DistinctNames(catalog)
    ensures (forall e | e in catalog :: Resolves(Render(models, catalog), e)) <==>
            forall e, f | e in catalog && f in catalog :: f.name != e.name + "-upstream"
  {
    forall i | 0 <= i < |catalog|
      ensures Resolves(Render(models, catalog), catalog[i]) <==> NoLaterCollision(catalog, i)
    {
      ResolvesUnlessALaterNameCollides(models, catalog, i);
    }
    NoneCollide(catalog);
    assert forall i | 0 <= i < |catalog| :: catalog[i] in catalog;
  }

  lemma NoneCollide(catalog: seq<CatalogModel>)
    ensures (forall i | 0 <= i < |catalog| :: NoLaterCollision(catalog, i)) <==>
            forall e, f | e in catalog && f in catalog :: f.name != e.name + "-upstream"
  {
    if forall i | 0 <= i < |catalog| :: NoLaterCollision(catalog, i) {
      forall i, j | 0 <= i < |catalog| && 0 <= j < |catalog|
        ensures catalog[j].name != UpstreamName(catalog[i].name)
      {
        assert NoLaterCollision(catalog, i) && NoLaterCollision(catalog, j);
        UpstreamInjective(catalog[i].name, catalog[j].name);
      }
    }
  }

  /** At an input: of "m" and "m-upstream" only the one listed later resolves. */
  lemma SuffixedNameWins(models: Store, e: CatalogModel, f: CatalogModel)
    requires e.name == "m" && f.name == "m-upstream"
    ensures !Resolves(Render(models, [e, f]), e) && Resolves(Render(models, [e, f]), f)
    ensures Resolves(Render(models, [f, e]), e) && !Resolves(Render(models, [f, e]), f)
  {
    assert "m-upstream" == "m" + "-upstream";
    var ef, fe := [e, f], [f, e];
    assert Collide(ef[0].name, ef[1].name) && Collide(fe[0].name, fe[1].name);
    ResolvesUnlessALaterNameCollides(models, ef, 0);
    ResolvesUnlessALaterNameCollides(models, ef, 1);
    ResolvesUnlessALaterNameCollides(models, fe, 0);
    ResolvesUnlessALaterNameCollides(models, fe, 1);
  }

  /** A pass repeated at once changes nothing. */
  lemma RenderTwiceIsRenderOnce(models: Store, catalog: seq<CatalogModel>)
    ensures Render(Render(models, catalog), catalog) == Render(models, catalog)
  {
    var once := Render(models, catalog);
    forall n
      ensures n in Render(once, catalog) <==> n in once
      ensures n in once ==> Render(once, catalog)[n] == once[n]
    {
      RenderAt(models, catalog, n);
      RenderAt(once, catalog, n);
    }
  }

  /** Whatever a pass cut short left, the next complete pass ends where an undisturbed one would have. */
  lemma InterruptionLeavesNoTrace(models: Store, catalog: seq<CatalogModel>, cut: Store)
    requires Partial(models, catalog, cut)
    ensures Render(cut, catalog) == Render(models, catalog)
  {
    forall n
      ensures n in Render(cut, catalog) <==> n in Render(models, catalog)
      ensures n in Render(cut, catalog) ==> Render(cut, catalog)[n] == Render(models, catalog)[n]
    {
      CutAt(models, catalog, cut, n);
      RenderAt(models, catalog, n);
      RenderAt(cut, catalog, n);
    }
  }

  lemma CutAt(models: Store, catalog: seq<CatalogModel>, cut: Store, n: string)
    requires Partial(models, catalog, cut)
    ensures if n in ExpectedNames(catalog)
            then Marked(LabelsAt(cut, n)) == Marked(LabelsAt(models, n))
            else (n in cut ==> n in models && cut[n] == models[n])
                 && (n in models && n !in cut ==> models[n].Managed())
  {
    PutPairsAt(models, catalog, n);
    WrittenNames(catalog, n);
    if k: nat :| k <= 2 * |catalog| && cut == FirstWrites(models, catalog, k) {
      FirstWritesAt(models, catalog, k, n);
    } else {
      var written, expected := PutPairs(models, catalog), ExpectedNames(catalog);
      var gone :| gone <= Strays(written, expected) && cut == written - gone;
      assert n in cut <==> n in written && n !in gone;
    }
  }

  lemma FirstPairsAt(models: Store, catalog: seq<CatalogModel>, h: nat, n: string)
    requires h <= |catalog|
    ensures var pairs := PutPairs(models, catalog[..h]);
            if n in ExpectedNames(catalog) then Marked(LabelsAt(pairs, n)) == Marked(LabelsAt(models, n))
            else (n in pairs <==> n in models) && (n in pairs ==> pairs[n] == models[n])
  {
    PutPairsAt(models, catalog[..h], n);
    LaterNamesAreExpected(catalog, h, n);
    WrittenNames(catalog[..h], n);
  }

  lemma FirstWritesAt(models: Store, catalog: seq<CatalogModel>, k: nat, n: string)
    requires k <= 2 * |catalog|
    ensures var cut := FirstWrites(models, catalog, k);
            if n in ExpectedNames(catalog) then Marked(LabelsAt(cut, n)) == Marked(LabelsAt(models, n))
            else (n in cut <==> n in models) && (n in cut ==> cut[n] == models[n])
  {
    FirstPairsAt(models, catalog, k / 2, n);
    if k % 2 == 1 {
      LaterNamesAreExpected(catalog, k / 2, n);
      PutInternalAt(PutPairs(models, catalog[..k / 2]), catalog[k / 2], n);
    }
  }

  lemma PutInternalAt(models: Store, e: CatalogModel, n: string)
    ensures Marked(LabelsAt(PutInternal(models, e), n)) == Marked(LabelsAt(models, n))
    ensures n != UpstreamName(e.name) ==>
              (n in PutInternal(models, e) <==> n in models)
              && (n in models ==> PutInternal(models, e)[n] == models[n])
  {
  }

  lemma {:induction false} LaterNamesAreExpected(catalog: seq<CatalogModel>, k: nat, n: string)
    requires k <= |catalog|
    ensures n in ExpectedNames(catalog[..k]) ==> n in ExpectedNames(catalog)
    ensures k < |catalog| && n == UpstreamName(catalog[k].name) ==> n in ExpectedNames(catalog)
    decreases |catalog|
  {
    if k < |catalog| {
      var init := catalog[..|catalog| - 1];
      LaterNamesAreExpected(init, k, n);
      assert init[..k] == catalog[..k];
    } else {
      assert catalog[..k] == catalog;
    }
  }

  // ----- Models someone wrote by hand -----

  function Renders(models: Store, catalogs: seq<seq<CatalogModel>>): Store {
    if catalogs == [] then models
    else Render(Renders(models, catalogs[..|catalogs| - 1]), catalogs[|catalogs| - 1])
  }

  predicate Intact(models: Store, n: string, own: Object) {
    n in models && models[n] == own
  }

  /** One pass takes a hand-written model over exactly when it expects the name. */
  lemma HandWrittenStep(before: Store, catalog: seq<CatalogModel>, n: string, own: Object)
    requires !own.Managed() && (n in before ==> before[n] == own || before[n].Managed())
    ensures var after := Render(before, catalog);
            && (Intact(after, n, own) <==> Intact(before, n, own) && n !in ExpectedNames(catalog))
            && (n in after ==> after[n] == own || after[n].Managed())
  {
    RenderAt(before, catalog, n);
  }

  /**
   Over any run of catalogs, a hand-written model is left as its author wrote it
   exactly when none of them ever asked for its name: one that did takes the
   object over, and a later catalog that drops the name deletes it.
   */
  lemma {:induction false} HandWrittenSurvivesIff(models: Store, catalogs: seq<seq<CatalogModel>>, n: string)
    requires n in models && !models[n].Managed()
    ensures Intact(Renders(models, catalogs), n, models[n]) <==>
            forall c | c in catalogs :: n !in ExpectedNames(c)
    ensures n in Renders(models, catalogs) ==>
              Renders(models, catalogs)[n] == models[n] || Renders(models, catalogs)[n].Managed()
  {
    if catalogs != [] {
      var k := |catalogs| - 1;
      HandWrittenSurvivesIff(models, catalogs[..k], n);
      HandWrittenStep(Renders(models, catalogs[..k]), catalogs[k], n, models[n]);
      assert catalogs == catalogs[..k] + [catalogs[k]];
    }
  }

  /** At an input: a catalog takes a hand-written model over, and the next one, without its name, deletes it. */
  lemma HandWrittenIsDeleted(own: Object, e: CatalogModel, f: CatalogModel)
    requires !own.Managed() && e.name == "m" && f.name == "n"
    ensures "m" !in Renders(map["m" := own], [[e], [f]])
  {
    var start := map["m" := own];
    var taken := Render(start, [e]);
    RenderAt(start, [e], "m");
    ExpectedNamesAre([e], "m");
    assert e in [e];
    RenderAt(taken, [f], "m");
    ExpectedNamesAre([f], "m");
    assert UpstreamName("n")[0] != "m"[0];
    assert [[e], [f]][..1] == [[e]] && [[e]][..0] == [];
    assert Renders(start, [[e]]) == taken;
    assert Renders(start, [[e], [f]]) == Render(taken, [f]);
  }
}
