/** DNS zone validation at start-up and the two external-dns instances built from
    it. ARM ids are parsed by a library: the parser is a parameter, and what is
    used of it is stated as a hypothesis. */
module DnsZones {
  import opened Wrappers
  import opened Text

  datatype Resource = Resource(subscription: string, group: string, provider: string, resourceType: string)

  type Parser = string -> Option<Resource>

  const NETWORK_PROVIDER := "Microsoft.Network"
  const PRIVATE_TYPE := "privatednszones"
  const PUBLIC_TYPE := "dnszones"

  datatype Kind = Private | Public

  function KindOf(r: Resource): Option<Kind> {
    if Lower(r.resourceType) == PRIVATE_TYPE then Some(Private)
    else if Lower(r.resourceType) == PUBLIC_TYPE then Some(Public)
    else None
  }

  /** What the library promises: a parsed id has a subscription and a group, and
      the case of an id changes nothing but the case of its parts. */
  ghost predicate Parses(parse: Parser) {
    && (forall z | parse(z).Some? :: parse(z).value.subscription != "" && parse(z).value.group != "")
    && (forall z :: CaseBlind(parse, z))
  }

  predicate CaseBlind(parse: Parser, z: string) {
    SameUpToCase(parse(z), parse(Lower(z)))
  }

  predicate SameUpToCase(a: Option<Resource>, b: Option<Resource>) {
    a.Some? == b.Some? && (a.Some? ==>
      && EqualFold(a.value.subscription, b.value.subscription) && EqualFold(a.value.group, b.value.group)
      && EqualFold(a.value.provider, b.value.provider) && EqualFold(a.value.resourceType, b.value.resourceType))
  }

  /** `ValidateProviderSubAndRg` against what is remembered; "" remembers nothing. */
  predicate Agrees(r: Resource, subscription: string, group: string) {
    && EqualFold(r.provider, NETWORK_PROVIDER)
    && (subscription != "" ==> EqualFold(r.subscription, subscription))
    && (group != "" ==> EqualFold(r.group, group))
  }

  datatype ZoneConfig = ZoneConfig(subscription: string, group: string, zoneIds: set<string>)

  const NO_ZONES := ZoneConfig("", "", {})

  // ---- the reference: no order in sight -------------------------------------------------------

  function TypeName(k: Kind): string {
    match k
    case Private => "privatednszones"
    case Public => "dnszones"
  }

  lemma KindOfIff(r: Resource, k: Kind)
    ensures KindOf(r) == Some(k) <==> Lower(r.resourceType) == TypeName(k)
  {
    assert TypeName(Private)[0] != TypeName(Public)[0];
  }

  /** `z` is a DNS zone of the given kind. */
  predicate IsZone(parse: Parser, z: string, k: Kind) {
    && parse(z).Some? && Lower(parse(z).value.resourceType) == TypeName(k)
    && EqualFold(parse(z).value.provider, NETWORK_PROVIDER)
  }

  predicate SameGroup(a: Resource, b: Resource) {
    EqualFold(a.subscription, b.subscription) && EqualFold(a.group, b.group)
  }

  /** Every id is a zone, and zones of a kind share one subscription and one group, up to case. */
  ghost predicate ValidZones(parse: Parser, zones: seq<string>) {
    && (forall z | z in zones :: IsZone(parse, z, Private) || IsZone(parse, z, Public))
    && (forall k, z1, z2 | z1 in zones && z2 in zones && IsZone(parse, z1, k) && IsZone(parse, z2, k) ::
          SameGroup(parse(z1).value, parse(z2).value))
  }

  /** The lower-cased ids of a kind. */
  ghost function ZonesOf(parse: Parser, zones: seq<string>, k: Kind): set<string> {
    set z | z in zones && IsZone(parse, z, k) :: Lower(z)
  }

  /** A configuration remembers one zone of its kind, or nothing if there is none. */
  ghost predicate Remembers(parse: Parser, zones: seq<string>, k: Kind, c: ZoneConfig) {
    && c.zoneIds == ZonesOf(parse, zones, k)
    && if (forall z | z in zones :: !IsZone(parse, z, k)) then c.subscription == "" && c.group == ""
       else exists z | z in zones && IsZone(parse, z, k) ::
              c.subscription == parse(z).value.subscription && c.group == parse(z).value.group
  }

  ghost predicate Loaded(parse: Parser, zones: seq<string>, priv: ZoneConfig, pub: ZoneConfig) {
    ValidZones(parse, zones) && Remembers(parse, zones, Private, priv) && Remembers(parse, zones, Public, pub)
  }

  // ---- the loop ------------------------------------------------------------------------------

  /** The configuration one more id leads to, if it is accepted. */
  function Next(c: ZoneConfig, r: Resource, z: string): ZoneConfig {
    ZoneConfig(r.subscription, r.group, c.zoneIds + {Lower(z)})
  }

  class Config {
    var privateZones: ZoneConfig
    var publicZones: ZoneConfig

    constructor ()
      ensures privateZones == publicZones == NO_ZONES
    {
      privateZones, publicZones := NO_ZONES, NO_ZONES;
    }

    /** One id: checked against what is remembered for its kind, then remembered itself. */
    method AddZone(parse: Parser, ghost done: seq<string>, z: string) returns (ok: bool)
      requires Parses(parse) && Loaded(parse, done, privateZones, publicZones)
      modifies this
      ensures ok <==> ValidZones(parse, done + [z])
      ensures ok ==> Loaded(parse, done + [z], privateZones, publicZones)
    {
      AddZoneEffect(parse, done, z, privateZones, publicZones);
      var parsed := parse(z);
      if parsed.None? || KindOf(parsed.value).None? {
        return false;
      }
      var r := parsed.value;
      match KindOf(r).value {
        case Private =>
          if !Agrees(r, privateZones.subscription, privateZones.group) {
            return false;
          }
          privateZones := Next(privateZones, r, z);
        case Public =>
          if !Agrees(r, publicZones.subscription, publicZones.group) {
            return false;
          }
          publicZones := Next(publicZones, r, z);
      }
      return true;
    }

    /** The verdict is that of the reference, and on success both configurations
        hold exactly the zones of their kind. */
    method ParseAndValidateZoneIDs(parse: Parser, zones: seq<string>) returns (ok: bool)
      requires Parses(parse)
      modifies this
      ensures ok <==> ValidZones(parse, zones)
      ensures ok ==> Loaded(parse, zones, privateZones, publicZones)
    {
      privateZones, publicZones := NO_ZONES, NO_ZONES;
      for i := 0 to |zones|
        invariant Loaded(parse, zones[..i], privateZones, publicZones)
      {
        assert zones[..i + 1] == zones[..i] + [zones[i]];
        PrefixInvalid(parse, zones, i + 1);
        var added := AddZone(parse, zones[..i], zones[i]);
        if !added {
          return false;
        }
      }
      assert zones[..|zones|] == zones;
      return true;
    }
  }

  lemma AddZoneEffect(parse: Parser, done: seq<string>, z: string, priv: ZoneConfig, pub: ZoneConfig)
    requires Parses(parse) && Loaded(parse, done, priv, pub)
    ensures parse(z).None? || KindOf(parse(z).value).None? ==> !ValidZones(parse, done + [z])
    ensures parse(z).Some? && KindOf(parse(z).value) == Some(Private) ==>
              && (Agrees(parse(z).value, priv.subscription, priv.group) <==> ValidZones(parse, done + [z]))
              && (ValidZones(parse, done + [z]) ==> Loaded(parse, done + [z], Next(priv, parse(z).value, z), pub))
    ensures parse(z).Some? && KindOf(parse(z).value) == Some(Public) ==>
              && (Agrees(parse(z).value, pub.subscription, pub.group) <==> ValidZones(parse, done + [z]))
              && (ValidZones(parse, done + [z]) ==> Loaded(parse, done + [z], priv, Next(pub, parse(z).value, z)))
  {
    LastIsZone(parse, done, z);
    if parse(z).Some? && KindOf(parse(z).value).Some? {
      var k := KindOf(parse(z).value).value;
      var c := if k == Private then priv else pub;
      AgreesIffValid(parse, done, z, k, c);
      if ValidZones(parse, done + [z]) {
        RemembersNext(parse, done, z, k, c, Next(c, parse(z).value, z));
        RemembersOther(parse, done, z, k, if k == Private then Public else Private, if k == Private then pub else priv);
      }
    }
  }

  lemma LastIsZone(parse: Parser, zones: seq<string>, z: string)
    ensures ValidZones(parse, zones + [z]) ==> IsZone(parse, z, Private) || IsZone(parse, z, Public)
  {
    assert z in zones + [z];
  }

  lemma PrefixInvalid(parse: Parser, zones: seq<string>, i: nat)
    requires i <= |zones|
    ensures ValidZones(parse, zones) ==> ValidZones(parse, zones[..i])
  {
    assert forall z | z in zones[..i] :: z in zones;
  }

  lemma ValidMakesAgrees(parse: Parser, zones: seq<string>, z: string, k: Kind, c: ZoneConfig)
    requires Remembers(parse, zones, k, c) && ValidZones(parse, zones + [z])
    requires parse(z).Some? && KindOf(parse(z).value) == Some(k)
    ensures Agrees(parse(z).value, c.subscription, c.group)
  {
    var all := zones + [z];
    LastIsZone(parse, zones, z);
    if c.subscription != "" || c.group != "" {
      var y :| y in zones && IsZone(parse, y, k)
               && c.subscription == parse(y).value.subscription && c.group == parse(y).value.group;
      assert y in all && z in all;
      assert SameGroup(parse(z).value, parse(y).value);
    }
  }

  lemma AgreesMakesValid(parse: Parser, zones: seq<string>, z: string, k: Kind, c: ZoneConfig)
    requires Parses(parse) && ValidZones(parse, zones) && Remembers(parse, zones, k, c)
    requires parse(z).Some? && KindOf(parse(z).value) == Some(k) && Agrees(parse(z).value, c.subscription, c.group)
    ensures ValidZones(parse, zones + [z])
  {
    var all := zones + [z];
    assert forall y | y in all :: y in zones || y == z;
    forall y | y in zones && IsZone(parse, y, k)
      ensures SameGroup(parse(y).value, parse(z).value)
    {
      var x :| x in zones && IsZone(parse, x, k)
               && c.subscription == parse(x).value.subscription && c.group == parse(x).value.group;
      assert SameGroup(parse(y).value, parse(x).value);
    }
    forall k', z1, z2 | z1 in all && z2 in all && IsZone(parse, z1, k') && IsZone(parse, z2, k')
      ensures SameGroup(parse(z1).value, parse(z2).value)
    {
    }
  }

  /** Checking against the remembered zone is checking against all of them. */
  lemma AgreesIffValid(parse: Parser, zones: seq<string>, z: string, k: Kind, c: ZoneConfig)
    requires Parses(parse) && ValidZones(parse, zones) && Remembers(parse, zones, k, c)
    requires parse(z).Some? && KindOf(parse(z).value) == Some(k)
    ensures Agrees(parse(z).value, c.subscription, c.group) <==> ValidZones(parse, zones + [z])
  {
    if Agrees(parse(z).value, c.subscription, c.group) {
      AgreesMakesValid(parse, zones, z, k, c);
    } else if ValidZones(parse, zones + [z]) {
      ValidMakesAgrees(parse, zones, z, k, c);
    }
  }

  lemma RemembersNext(parse: Parser, zones: seq<string>, z: string, k: Kind, c: ZoneConfig, c': ZoneConfig)
    requires Remembers(parse, zones, k, c) && IsZone(parse, z, k)
    requires c' == Next(c, parse(z).value, z)
    ensures Remembers(parse, zones + [z], k, c')
  {
    var all := zones + [z];
    assert z in all && forall y | y in all :: y in zones || y == z;
    assert forall y | y in zones :: y in all;
  }

  lemma RemembersOther(parse: Parser, zones: seq<string>, z: string, k: Kind, k': Kind, c: ZoneConfig)
    requires Remembers(parse, zones, k', c) && IsZone(parse, z, k)
    ensures k' != k ==> Remembers(parse, zones + [z], k', c)
  {
    var all := zones + [z];
    if k' != k {
      assert z in all && forall y | y in all :: y in zones || y == z;
      assert forall y | y in zones :: y in all;
      assert ZonesOf(parse, all, k') == ZonesOf(parse, zones, k');
    }
  }

  /** Order and repetition of the ids change neither the verdict nor the sets. */
  lemma ZonesOrderIndependent(parse: Parser, a: seq<string>, b: seq<string>)
    requires forall z :: z in a <==> z in b
    ensures ValidZones(parse, a) <==> ValidZones(parse, b)
    ensures forall k :: ZonesOf(parse, a, k) == ZonesOf(parse, b, k)
  {
    forall k
      ensures ZonesOf(parse, a, k) == ZonesOf(parse, b, k)
    {
    }
  }

  lemma PermutationOrderIndependent(parse: Parser, a: seq<string>, b: seq<string>)
    requires multiset(a) == multiset(b)
    ensures ValidZones(parse, a) <==> ValidZones(parse, b)
    ensures forall k :: ZonesOf(parse, a, k) == ZonesOf(parse, b, k)
  {
    forall z
      ensures z in a <==> z in b
    {
      assert z in a <==> z in multiset(a);
      assert z in b <==> z in multiset(b);
    }
    ZonesOrderIndependent(parse, a, b);
  }

  // ---- the external-dns instances ------------------------------------------------------------

  datatype DnsConfig = DnsConfig(kind: Kind, subscription: string, group: string, zoneIds: seq<string>)

  datatype Action = Deploy | Clean

  datatype BuildError = InvalidId | MixedTypes | Disagrees | InvalidType | NoProvider

  /** The checks on the ids after the first one. */
  function CheckRest(parse: Parser, first: Resource, ids: seq<string>): Option<BuildError> {
    if ids == [] then None
    else
      var z := parse(ids[0]);
      if z.None? then Some(InvalidId)
      else if !EqualFold(z.value.resourceType, first.resourceType) then Some(MixedTypes)
      else if !Agrees(z.value, first.subscription, first.group) then Some(Disagrees)
      else CheckRest(parse, first, ids[1..])
  }

  /** `NewExternalDNSConfig` for the operator's own configuration: its zone checks and choice of provider. */
  function NewDnsConfig(parse: Parser, ids: seq<string>, provider: Option<Kind>): Result<DnsConfig, BuildError> {
    if ids == [] then
      if provider.None? then Err(NoProvider) else Ok(DnsConfig(provider.value, "", "", ids))
    else
      var first := parse(ids[0]);
      if first.None? then Err(InvalidId)
      else
        var err := CheckRest(parse, first.value, ids[1..]);
        if err.Some? then Err(err.value)
        else if KindOf(first.value).None? then Err(InvalidType)
        else Ok(DnsConfig(KindOf(first.value).value, first.value.subscription, first.value.group, ids))
  }

  /** The loop with its early exits. */
  method NewDnsConfigLoop(parse: Parser, ids: seq<string>, provider: Option<Kind>) returns (r: Result<DnsConfig, BuildError>)
    ensures r == NewDnsConfig(parse, ids, provider)
  {
    if |ids| == 0 {
      if provider.None? {
        return Err(NoProvider);
      }
      return Ok(DnsConfig(provider.value, "", "", ids));
    }
    var first := parse(ids[0]);
    if first.None? {
      return Err(InvalidId);
    }
    var i := 1;
    while i < |ids|
      invariant 1 <= i <= |ids|
      invariant CheckRest(parse, first.value, ids[1..]) == CheckRest(parse, first.value, ids[i..])
    {
      assert ids[i..][0] == ids[i] && ids[i..][1..] == ids[i + 1..];
      var z := parse(ids[i]);
      if z.None? {
        return Err(InvalidId);
      }
      if !EqualFold(z.value.resourceType, first.value.resourceType) {
        return Err(MixedTypes);
      }
      if !Agrees(z.value, first.value.subscription, first.value.group) {
        return Err(Disagrees);
      }
      i := i + 1;
    }
    var k := KindOf(first.value);
    return if k.None? then Err(InvalidType)
           else Ok(DnsConfig(k.value, first.value.subscription, first.value.group, ids));
  }

  function ActionFor(c: DnsConfig): Action {
    if |c.zoneIds| == 0 then Clean else Deploy
  }

  lemma {:induction false} CheckRestPasses(parse: Parser, first: Resource, ids: seq<string>, k: Kind)
    requires KindOf(first) == Some(k)
    requires forall z | z in ids :: IsZone(parse, z, k) && SameGroup(parse(z).value, first)
    ensures CheckRest(parse, first, ids) == None
  {
    if ids == [] {
    } else {
      assert ids[0] in ids;
      CheckRestPasses(parse, first, ids[1..], k);
    }
  }

  /** A later id fits the first one: of its type, of the network provider, in its subscription and group. */
  predicate FitsFirst(parse: Parser, first: Resource, z: string) {
    && parse(z).Some? && Lower(parse(z).value.resourceType) == Lower(first.resourceType)
    && EqualFold(parse(z).value.provider, NETWORK_PROVIDER) && SameGroup(parse(z).value, first)
  }

  lemma {:induction false} CheckRestIff(parse: Parser, first: Resource, ids: seq<string>)
    requires first.subscription != "" && first.group != ""
    ensures CheckRest(parse, first, ids) == None <==> forall z | z in ids :: FitsFirst(parse, first, z)
  {
    if ids == [] {
    } else {
      CheckRestIff(parse, first, ids[1..]);
      assert ids[0] in ids && forall z | z in ids :: z == ids[0] || z in ids[1..];
    }
  }

  /** Which error it is: that of the first id that does not fit. */
  lemma {:induction false} FirstMisfit(parse: Parser, first: Resource, ids: seq<string>, i: nat)
    requires first.subscription != "" && first.group != ""
    requires i < |ids| && !FitsFirst(parse, first, ids[i])
    requires forall j | 0 <= j < i :: FitsFirst(parse, first, ids[j])
    ensures CheckRest(parse, first, ids) ==
            Some(if parse(ids[i]).None? then InvalidId
                 else if Lower(parse(ids[i]).value.resourceType) != Lower(first.resourceType) then MixedTypes
                 else Disagrees)
  {
    if i == 0 {
    } else {
      FirstMisfit(parse, first, ids[1..], i - 1);
    }
  }

  /** Exactly which ids make a configuration, and what it says. */
  lemma BuildsIff(parse: Parser, ids: seq<string>, provider: Option<Kind>, k: Kind)
    requires Parses(parse)
    ensures var r := NewDnsConfig(parse, ids, provider);
            && (r.Ok? && r.value.kind == k <==>
                  if ids == [] then provider == Some(k)
                  else && parse(ids[0]).Some? && Lower(parse(ids[0]).value.resourceType) == TypeName(k)
                       && forall z | z in ids[1..] :: FitsFirst(parse, parse(ids[0]).value, z))
            && (r.Ok? ==> r.value.zoneIds == ids)
            && (r.Ok? && ids != [] ==>
                  && parse(ids[0]).Some? && r.value.subscription == parse(ids[0]).value.subscription
                  && r.value.group == parse(ids[0]).value.group)
  {
    if ids != [] && parse(ids[0]).Some? {
      CheckRestIff(parse, parse(ids[0]).value, ids[1..]);
      KindOfIff(parse(ids[0]).value, k);
    }
  }

  /** The lower-cased id of a zone is a zone of the same kind, subscription and group. */
  lemma LowerIsZone(parse: Parser, z: string, k: Kind)
    requires Parses(parse) && IsZone(parse, z, k)
    ensures IsZone(parse, Lower(z), k) && SameGroup(parse(Lower(z)).value, parse(z).value)
  {
    assert CaseBlind(parse, z);
  }

  /** Validated zones always build: for each kind and every order of its keys the
      configuration succeeds with the provider of that kind, and it deploys
      exactly when there are zones. */
  lemma ValidatedZonesBuild(parse: Parser, zones: seq<string>, k: Kind, keys: seq<string>)
    requires Parses(parse) && ValidZones(parse, zones)
    requires forall x :: x in keys <==> x in ZonesOf(parse, zones, k)
    ensures var r := NewDnsConfig(parse, keys, Some(k));
            && r.Ok? && r.value.kind == k && r.value.zoneIds == keys
            && (forall x | x in keys :: parse(x).Some?
                  && EqualFold(r.value.subscription, parse(x).value.subscription)
                  && EqualFold(r.value.group, parse(x).value.group))
            && (ActionFor(r.value) == Deploy <==> ZonesOf(parse, zones, k) != {})
  {
    forall x, y | x in keys && y in keys
      ensures IsZone(parse, x, k) && IsZone(parse, y, k) && SameGroup(parse(x).value, parse(y).value)
    {
      KeysAgree(parse, zones, k, x, y);
    }
    if keys != [] {
      assert keys[0] in keys;
      assert forall x | x in keys[1..] :: x in keys;
      CheckRestPasses(parse, parse(keys[0]).value, keys[1..], k);
    }
  }

  lemma KeysAgree(parse: Parser, zones: seq<string>, k: Kind, x: string, y: string)
    requires Parses(parse) && ValidZones(parse, zones)
    requires x in ZonesOf(parse, zones, k) && y in ZonesOf(parse, zones, k)
    ensures IsZone(parse, x, k) && IsZone(parse, y, k) && SameGroup(parse(x).value, parse(y).value)
  {
    var z1 :| z1 in zones && IsZone(parse, z1, k) && Lower(z1) == x;
    var z2 :| z2 in zones && IsZone(parse, z2, k) && Lower(z2) == y;
    LowerIsZone(parse, z1, k);
    LowerIsZone(parse, z2, k);
    assert SameGroup(parse(z1).value, parse(z2).value);
  }
}
