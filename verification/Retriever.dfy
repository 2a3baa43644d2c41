/** The algebra of clean-type retrievers: lists of resource types with labels,
    added to and removed from each other. A retriever is a function of the REST
    mapper and may fail. */
module Retriever {
  import opened Wrappers

  datatype Gvr = Gvr(group: string, version: string, resource: string)

  /** Labels are a Go map: nil and empty compare as different. */
  datatype CleanType = CleanType(labels: Option<map<string, string>>, gvr: Gvr)

  datatype GroupKind = GroupKind(group: string, kind: string)

  type Error = string

  /** All mappings of a group kind, or an error. */
  type Mapper = GroupKind -> Result<seq<Gvr>, Error>

  type Retriever = Mapper -> Result<seq<CleanType>, Error>

  datatype Strategy = Everything | IgnoreLabels | UnknownStrategy(n: int)

  predicate Equal(a: CleanType, b: CleanType, cs: Strategy) {
    match cs
    case Everything => a == b
    case IgnoreLabels => a.gvr == b.gvr
    case UnknownStrategy(_) => false
  }

  predicate Matches(t: CleanType, filters: seq<CleanType>, cs: Strategy) {
    exists f | f in filters :: Equal(t, f, cs)
  }

  /** The entries that no filter matches, in order. */
  function Keep(ts: seq<CleanType>, filters: seq<CleanType>, cs: Strategy): seq<CleanType> {
    if ts == [] then []
    else
      var t := ts[|ts| - 1];
      Keep(ts[..|ts| - 1], filters, cs) + if Matches(t, filters, cs) then [] else [t]
  }

  /** The inner loop of `Remove`. */
  method IsFiltered(t: CleanType, filters: seq<CleanType>, cs: Strategy) returns (filtered: bool)
    ensures filtered <==> Matches(t, filters, cs)
  {
    for j := 0 to |filters|
      invariant forall k | 0 <= k < j :: !Equal(t, filters[k], cs)
    {
      if Equal(t, filters[j], cs) {
        return true;
      }
    }
    return false;
  }

  /** The outer loop, appending what no filter matches. */
  method RemoveLoop(existing: seq<CleanType>, filters: seq<CleanType>, cs: Strategy) returns (ok: seq<CleanType>)
    ensures ok == Keep(existing, filters, cs)
  {
    ok := [];
    for i := 0 to |existing|
      invariant ok == Keep(existing[..i], filters, cs)
    {
      assert existing[..i + 1][..i] == existing[..i];
      var filtered := IsFiltered(existing[i], filters, cs);
      if !filtered {
        ok := ok + [existing[i]];
      }
    }
    assert existing[..|existing|] == existing;
  }

  function Add(g: Retriever, h: Retriever): Retriever {
    (mapper: Mapper) =>
      match g(mapper)
      case Err(e) => Err(e)
      case Ok(was) =>
        match h(mapper)
        case Err(e) => Err(e)
        case Ok(add) => Ok(was + add)
  }

  function Remove(g: Retriever, h: Retriever, cs: Strategy): Retriever {
    (mapper: Mapper) =>
      match g(mapper)
      case Err(e) => Err(e)
      case Ok(existing) =>
        match h(mapper)
        case Err(e) => Err(e)
        case Ok(filters) => Ok(Keep(existing, filters, cs))
  }

  function WithLabels(gvrs: seq<Gvr>, labels: Option<map<string, string>>): (ts: seq<CleanType>)
    ensures |ts| == |gvrs|
    ensures forall i | 0 <= i < |ts| :: ts[i] == CleanType(labels, gvrs[i])
  {
    seq(|gvrs|, i requires 0 <= i < |gvrs| => CleanType(labels, gvrs[i]))
  }

  function AllMappings(mapper: Mapper, gks: seq<GroupKind>): Result<seq<Gvr>, Error> {
    if gks == [] then Ok([])
    else
      match AllMappings(mapper, gks[..|gks| - 1])
      case Err(e) => Err(e)
      case Ok(gvrs) =>
        match mapper(gks[|gks| - 1])
        case Err(e) => Err(e)
        case Ok(more) => Ok(gvrs + more)
  }

  function FromGk(labels: Option<map<string, string>>, gks: seq<GroupKind>): Retriever {
    (mapper: Mapper) =>
      match AllMappings(mapper, gks)
      case Err(e) => Err(e)
      case Ok(gvrs) => Ok(WithLabels(gvrs, labels))
  }

  // ---- what Keep computes --------------------------------------------------------------------

  /** Increasing positions of `ts` at which `ks` is found. */
  ghost predicate Positions(ks: seq<CleanType>, ts: seq<CleanType>, at: seq<nat>) {
    && |at| == |ks|
    && (forall i | 0 <= i < |at| :: at[i] < |ts| && ts[at[i]] == ks[i])
    && (forall i, j | 0 <= i < j < |at| :: at[i] < at[j])
  }

  /** The result is the subsequence of the entries that no filter matches: exactly
      those positions, in order, each once. */
  lemma {:induction false} KeepIsSubsequence(ts: seq<CleanType>, filters: seq<CleanType>, cs: Strategy) returns (at: seq<nat>)
    ensures Positions(Keep(ts, filters, cs), ts, at)
    ensures forall p: nat | p < |ts| :: p in at <==> !Matches(ts[p], filters, cs)
  {
    if ts == [] {
      at := [];
    } else {
      var n := |ts| - 1;
      at := KeepIsSubsequence(ts[..n], filters, cs);
      assert forall i | 0 <= i < |at| :: at[i] < n;
      if !Matches(ts[n], filters, cs) {
        at := at + [n];
      }
    }
  }

  lemma {:induction false} KeepMembers(ts: seq<CleanType>, filters: seq<CleanType>, cs: Strategy, t: CleanType)
    ensures t in Keep(ts, filters, cs) <==> t in ts && !Matches(t, filters, cs)
  {
    if ts == [] {
    } else {
      KeepMembers(ts[..|ts| - 1], filters, cs, t);
      assert ts == ts[..|ts| - 1] + [ts[|ts| - 1]];
    }
  }

  lemma {:induction false} KeepConcat(a: seq<CleanType>, b: seq<CleanType>, filters: seq<CleanType>, cs: Strategy)
    ensures Keep(a + b, filters, cs) == Keep(a, filters, cs) + Keep(b, filters, cs)
    decreases |b|
  {
    if b == [] {
      assert a + b == a;
    } else {
      assert (a + b)[..|a + b| - 1] == a + b[..|b| - 1];
      KeepConcat(a, b[..|b| - 1], filters, cs);
    }
  }

  lemma {:induction false} KeepTwice(ts: seq<CleanType>, f: seq<CleanType>, g: seq<CleanType>, cs: Strategy)
    ensures Keep(Keep(ts, f, cs), g, cs) == Keep(ts, f + g, cs)
  {
    if ts == [] {
    } else {
      var init, t := ts[..|ts| - 1], ts[|ts| - 1];
      KeepTwice(init, f, g, cs);
      assert Matches(t, f + g, cs) <==> Matches(t, f, cs) || Matches(t, g, cs);
      if !Matches(t, f, cs) {
        assert (Keep(init, f, cs) + [t])[..|Keep(init, f, cs)|] == Keep(init, f, cs);
      } else {
        assert Keep(ts, f, cs) == Keep(init, f, cs);
      }
    }
  }

  lemma {:induction false} KeepNothingNew(ts: seq<CleanType>, f: seq<CleanType>, cs: Strategy)
    requires forall i | 0 <= i < |ts| :: !Matches(ts[i], f, cs)
    ensures Keep(ts, f, cs) == ts
  {
    if ts == [] {
    } else {
      var n := |ts| - 1;
      KeepNothingNew(ts[..n], f, cs);
      assert ts[..n] + [ts[n]] == ts;
    }
  }

  // ---- laws of retrievers --------------------------------------------------------------------

  /** Two retrievers succeed on the same mappers, with the same list. (Which error
      a failing one reports depends on the order of evaluation.) */
  ghost predicate Same(a: Retriever, b: Retriever) {
    forall mapper :: SameAt(a, b, mapper)
  }

  ghost predicate SameAt(a: Retriever, b: Retriever, mapper: Mapper) {
    a(mapper).Ok? == b(mapper).Ok? && (a(mapper).Ok? ==> a(mapper).value == b(mapper).value)
  }

  /** Removing distributes over adding. */
  lemma RemoveDistributes(a: Retriever, b: Retriever, f: Retriever, cs: Strategy)
    ensures Same(Remove(Add(a, b), f, cs), Add(Remove(a, f, cs), Remove(b, f, cs)))
  {
    forall mapper: Mapper
      ensures SameAt(Remove(Add(a, b), f, cs), Add(Remove(a, f, cs), Remove(b, f, cs)), mapper)
    {
      if a(mapper).Ok? && b(mapper).Ok? && f(mapper).Ok? {
        KeepConcat(a(mapper).value, b(mapper).value, f(mapper).value, cs);
      }
    }
  }

  /** Removing one and then the other is removing their sum. */
  lemma RemoveTwice(a: Retriever, f: Retriever, g: Retriever, cs: Strategy)
    ensures Same(Remove(Remove(a, f, cs), g, cs), Remove(a, Add(f, g), cs))
  {
    forall mapper: Mapper
      ensures SameAt(Remove(Remove(a, f, cs), g, cs), Remove(a, Add(f, g), cs), mapper)
    {
      if a(mapper).Ok? && f(mapper).Ok? && g(mapper).Ok? {
        KeepTwice(a(mapper).value, f(mapper).value, g(mapper).value, cs);
      }
    }
  }

  /** Removing again changes nothing. */
  lemma RemoveIdempotent(a: Retriever, f: Retriever, cs: Strategy)
    ensures Same(Remove(Remove(a, f, cs), f, cs), Remove(a, f, cs))
  {
    forall mapper: Mapper
      ensures SameAt(Remove(Remove(a, f, cs), f, cs), Remove(a, f, cs), mapper)
    {
      if a(mapper).Ok? && f(mapper).Ok? {
        var kept := Keep(a(mapper).value, f(mapper).value, cs);
        forall t | t in kept
          ensures !Matches(t, f(mapper).value, cs)
        {
          KeepMembers(a(mapper).value, f(mapper).value, cs, t);
        }
        KeepNothingNew(kept, f(mapper).value, cs);
      }
    }
  }

  /** A chain of Adds. */
  function AddAll(g: Retriever, more: seq<Retriever>): Retriever {
    if more == [] then g else Add(AddAll(g, more[..|more| - 1]), more[|more| - 1])
  }

  /** A chain of Adds succeeds exactly if all its parts do, with their lists one after the other. */
  lemma {:induction false} AddAllIsConcat(g: Retriever, more: seq<Retriever>, mapper: Mapper)
    ensures var r := AddAll(g, more)(mapper);
            && (r.Ok? <==> g(mapper).Ok? && forall h | h in more :: h(mapper).Ok?)
            && (r.Ok? ==> r.value == g(mapper).value + Lists(more, mapper))
  {
    if more == [] {
    } else {
      var init, last := more[..|more| - 1], more[|more| - 1];
      AddAllIsConcat(g, init, mapper);
      assert forall h :: h in more <==> h in init || h == last;
    }
  }

  /** The lists of those that succeed, one after the other. */
  function Lists(more: seq<Retriever>, mapper: Mapper): seq<CleanType> {
    if more == [] then []
    else
      var last := more[|more| - 1](mapper);
      Lists(more[..|more| - 1], mapper) + if last.Ok? then last.value else []
  }

  lemma {:induction false} AllMappingsMembers(mapper: Mapper, gks: seq<GroupKind>, r: Gvr)
    ensures AllMappings(mapper, gks).Ok? <==> forall gk | gk in gks :: mapper(gk).Ok?
    ensures AllMappings(mapper, gks).Ok? ==>
              (r in AllMappings(mapper, gks).value <==> exists gk | gk in gks :: mapper(gk).Ok? && r in mapper(gk).value)
  {
    if gks == [] {
    } else {
      var init, last := gks[..|gks| - 1], gks[|gks| - 1];
      AllMappingsMembers(mapper, init, r);
      assert forall gk :: gk in gks <==> gk in init || gk == last;
    }
  }

  /** From group kinds to types: every resource the mapper gives for any of them, each with
      the labels, and nothing else; an error if the mapper fails on one. */
  lemma FromGkMeans(labels: Option<map<string, string>>, gks: seq<GroupKind>, mapper: Mapper, t: CleanType)
    ensures FromGk(labels, gks)(mapper).Ok? <==> forall gk | gk in gks :: mapper(gk).Ok?
    ensures FromGk(labels, gks)(mapper).Ok? ==>
              (t in FromGk(labels, gks)(mapper).value <==>
                 t.labels == labels && exists gk | gk in gks :: mapper(gk).Ok? && t.gvr in mapper(gk).value)
  {
    AllMappingsMembers(mapper, gks, t.gvr);
    if FromGk(labels, gks)(mapper).Ok? {
      var gvrs := AllMappings(mapper, gks).value;
      var ts := WithLabels(gvrs, labels);
      if t.gvr in gvrs {
        var i :| 0 <= i < |gvrs| && gvrs[i] == t.gvr;
        assert ts[i] == CleanType(labels, t.gvr);
      }
    }
  }

  /** However many retrievers were added before, a removal that ignores labels leaves
      exactly the types whose resource is not in the filter. */
  lemma NothingFilteredSurvives(g: Retriever, more: seq<Retriever>, f: Retriever, mapper: Mapper, t: CleanType)
    requires Remove(AddAll(g, more), f, IgnoreLabels)(mapper).Ok?
    ensures t in Remove(AddAll(g, more), f, IgnoreLabels)(mapper).value <==>
            t in AddAll(g, more)(mapper).value && forall x | x in f(mapper).value :: x.gvr != t.gvr
  {
    var filters := f(mapper).value;
    KeepMembers(AddAll(g, more)(mapper).value, filters, IgnoreLabels, t);
    forall x | x in filters
      ensures Equal(t, x, IgnoreLabels) <==> x.gvr == t.gvr
    {
    }
  }

  /** A removal that compares labels takes out exactly the pairs of the filter. */
  lemma ExactPairsAreRemoved(a: Retriever, f: Retriever, mapper: Mapper, t: CleanType)
    requires Remove(a, f, Everything)(mapper).Ok?
    ensures t in Remove(a, f, Everything)(mapper).value <==> t in a(mapper).value && t !in f(mapper).value
  {
    KeepMembers(a(mapper).value, f(mapper).value, Everything, t);
    assert Matches(t, f(mapper).value, Everything) <==> t in f(mapper).value;
  }

  /** A strategy the code does not know removes nothing. */
  lemma UnknownStrategyRemovesNothing(a: Retriever, f: Retriever, n: int, mapper: Mapper)
    requires a(mapper).Ok? && f(mapper).Ok?
    ensures Remove(a, f, UnknownStrategy(n))(mapper) == a(mapper)
  {
    KeepNothingNew(a(mapper).value, f(mapper).value, UnknownStrategy(n));
  }

  /** The guard of the external-dns cleaner, which is disabled at present: removing a
      group kind without regard to labels leaves none of the resources the mapper
      gives for it. */
  lemma NoNamespaceIsCleaned(g: Retriever, more: seq<Retriever>, gk: GroupKind, mapper: Mapper, t: CleanType)
    requires Remove(AddAll(g, more), FromGk(None, [gk]), IgnoreLabels)(mapper).Ok?
    requires t in Remove(AddAll(g, more), FromGk(None, [gk]), IgnoreLabels)(mapper).value
    ensures mapper(gk).Ok? && t.gvr !in mapper(gk).value
  {
    NothingFilteredSurvives(g, more, FromGk(None, [gk]), mapper, t);
    SingleGk(mapper, gk, t.gvr);
  }

  lemma SingleGk(mapper: Mapper, gk: GroupKind, r: Gvr)
    requires FromGk(None, [gk])(mapper).Ok?
    ensures mapper(gk).Ok?
    ensures r in mapper(gk).value ==> CleanType(None, r) in FromGk(None, [gk])(mapper).value
  {
    var gks := [gk];
    assert gks[..|gks| - 1] == [] && AllMappings(mapper, []) == Ok([]);
    var gvrs := AllMappings(mapper, gks).value;
    assert gvrs == [] + mapper(gk).value == mapper(gk).value;
    if r in gvrs {
      var i :| 0 <= i < |gvrs| && gvrs[i] == r;
      assert WithLabels(gvrs, None)[i] == CleanType(None, r);
    }
  }
}
