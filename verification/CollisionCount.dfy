/** How one reconcile decides on its collision count, against one reading of the
    API server: `collides` walks the managed objects, `GetCollisionCount` walks
    the counts. The interleaved protocol around it is in CollisionProtocol. */
module CollisionCount {
  import opened Text
  import opened NginxManifests

  const NIC_KIND := "NginxIngressController"

  datatype OwnerRef = OwnerRef(kind: string, name: string)

  /** Answer of one Get: the stored owner references, not found, or an API error. */
  datatype Reading = NotFound | Found(owners: seq<OwnerRef>) | Failed

  type Reader = Key -> Reading

  datatype Collision = NoCollision | OnIngressClass | OnOther | Unreadable

  datatype Outcome = Count(count: nat) | MaxCollisions | IcCollision | ReadFailed

  /** Name of the first owner of that kind, compared without case; "" if there is none. */
  function FindOwnerKind(owners: seq<OwnerRef>, kind: string): string {
    if owners == [] then ""
    else if EqualFold(owners[0].kind, kind) then owners[0].name
    else FindOwnerKind(owners[1..], kind)
  }

  lemma {:induction false} FindOwnerKindIsFirst(owners: seq<OwnerRef>, kind: string, i: nat)
    requires i < |owners| && EqualFold(owners[i].kind, kind)
    requires forall j | 0 <= j < i :: !EqualFold(owners[j].kind, kind)
    ensures FindOwnerKind(owners, kind) == owners[i].name
  {
    if i == 0 {
    } else {
      FindOwnerKindIsFirst(owners[1..], kind, i - 1);
    }
  }

  lemma {:induction false} FindOwnerKindNone(owners: seq<OwnerRef>, kind: string)
    requires forall j | 0 <= j < |owners| :: !EqualFold(owners[j].kind, kind)
    ensures FindOwnerKind(owners, kind) == ""
  {
    if owners == [] {
    } else {
      FindOwnerKindNone(owners[1..], kind);
    }
  }

  /** The object is free for this controller: nobody has it, or it already does. */
  predicate Clear(r: Reading, nic: Nic) {
    r.NotFound? || (r.Found? && FindOwnerKind(r.owners, NIC_KIND) == nic.name)
  }

  /** The object is there and somebody else's. */
  predicate Foreign(r: Reading, nic: Nic) {
    r.Found? && FindOwnerKind(r.owners, NIC_KIND) != nic.name
  }

  /** What the first object that is not clear says about the whole list. */
  function FirstIssue(get: Reader, nic: Nic, objs: seq<Managed>, i: nat): Collision
    requires i <= |objs|
    decreases |objs| - i
  {
    if i == |objs| then NoCollision
    else
      var r := get(objs[i].key);
      if !objs[i].Labelled() || Clear(r, nic) then FirstIssue(get, nic, objs, i + 1)
      else if r.Failed? then Unreadable
      else if objs[i].key.kind == IngressClass then OnIngressClass
      else OnOther
  }

  function Collides(objects: Manifest, get: Reader, nic: Nic, count: nat): Collision {
    if nic.IsDefault() then NoCollision else FirstIssue(get, nic, objects(nic, count), 0)
  }

  function CountFrom(objects: Manifest, get: Reader, nic: Nic, count: nat): Outcome
    requires count <= MAX_COLLISIONS
    decreases MAX_COLLISIONS - count
  {
    if count == MAX_COLLISIONS then MaxCollisions
    else match Collides(objects, get, nic, count)
      case Unreadable => ReadFailed
      case OnIngressClass => IcCollision
      case NoCollision => Count(count)
      case OnOther => CountFrom(objects, get, nic, count + 1)
  }

  // ---- the loops -----------------------------------------------------------------------------

  class NginxIngressController {
    const spec: Nic
    var collisionCount: int

    constructor (spec: Nic, collisionCount: int)
      ensures this.spec == spec && this.collisionCount == collisionCount
    {
      this.spec := spec;
      this.collisionCount := collisionCount;
    }
  }

  /** The loop of `collides`, over the objects the current count names. */
  method CollidesLoop(objects: Manifest, get: Reader, nic: NginxIngressController) returns (c: Collision)
    requires nic.collisionCount >= 0
    ensures c == Collides(objects, get, nic.spec, nic.collisionCount)
  {
    if nic.spec.IsDefault() {
      return NoCollision;
    }
    var objs := objects(nic.spec, nic.collisionCount);
    var i := 0;
    while i < |objs|
      invariant 0 <= i <= |objs|
      invariant FirstIssue(get, nic.spec, objs, 0) == FirstIssue(get, nic.spec, objs, i)
    {
      if objs[i].Labelled() {
        var r := get(objs[i].key);
        if r.Failed? {
          return Unreadable;
        }
        if r.Found? && FindOwnerKind(r.owners, NIC_KIND) != nic.spec.name {
          return if objs[i].key.kind == IngressClass then OnIngressClass else OnOther;
        }
      }
      i := i + 1;
    }
    return NoCollision;
  }

  /** Increments the controller's own count while it looks, and puts it back. */
  method GetCollisionCount(objects: Manifest, get: Reader, nic: NginxIngressController) returns (r: Outcome)
    requires 0 <= nic.collisionCount <= MAX_COLLISIONS
    modifies nic
    ensures nic.collisionCount == old(nic.collisionCount)
    ensures r == CountFrom(objects, get, nic.spec, old(nic.collisionCount))
  {
    var starting := nic.collisionCount;
    while true
      invariant starting <= nic.collisionCount <= MAX_COLLISIONS
      invariant CountFrom(objects, get, nic.spec, starting) == CountFrom(objects, get, nic.spec, nic.collisionCount)
      decreases MAX_COLLISIONS - nic.collisionCount
    {
      if nic.collisionCount == MAX_COLLISIONS {
        r := MaxCollisions;
        break;
      }
      var collision := CollidesLoop(objects, get, nic);
      match collision {
        case Unreadable => r := ReadFailed; break;
        case OnIngressClass => r := IcCollision; break;
        case NoCollision => r := Count(nic.collisionCount); break;
        case OnOther => nic.collisionCount := nic.collisionCount + 1;
      }
    }
    nic.collisionCount := starting;
  }

  // ---- what they decide ----------------------------------------------------------------------

  /** Every labelled object of this count is free for the controller. */
  ghost predicate AllClear(objects: Manifest, get: Reader, nic: Nic, count: nat) {
    forall i | 0 <= i < |objects(nic, count)| ::
      objects(nic, count)[i].Labelled() ==> Clear(get(objects(nic, count)[i].key), nic)
  }

  lemma {:induction false} FirstIssueNone(get: Reader, nic: Nic, objs: seq<Managed>, i: nat)
    requires i <= |objs|
    ensures FirstIssue(get, nic, objs, i) == NoCollision
       <==> forall j | i <= j < |objs| :: objs[j].Labelled() ==> Clear(get(objs[j].key), nic)
    decreases |objs| - i
  {
    if i == |objs| {
    } else {
      FirstIssueNone(get, nic, objs, i + 1);
    }
  }

  /** A count is free exactly when all its objects are. */
  lemma NoCollisionIffAllClear(objects: Manifest, get: Reader, nic: Nic, count: nat)
    requires !nic.IsDefault()
    ensures Collides(objects, get, nic, count) == NoCollision <==> AllClear(objects, get, nic, count)
  {
    FirstIssueNone(get, nic, objects(nic, count), 0);
  }

  lemma {:induction false} FirstIssueIc(objects: Manifest, get: Reader, nic: Nic, count: nat, i: nat)
    requires Shaped(objects) && i <= |objects(nic, count)|
    ensures FirstIssue(get, nic, objects(nic, count), i) == OnIngressClass ==> Foreign(get(IcKey(nic)), nic)
    decreases |objects(nic, count)| - i
  {
    if i == |objects(nic, count)| {
    } else {
      assert ObjectShape(nic, count, objects(nic, count)[i]);
      FirstIssueIc(objects, get, nic, count, i + 1);
    }
  }

  lemma IcIsLookedAtFirst(get: Reader, nic: Nic, objs: seq<Managed>)
    requires IcFirst(nic, objs)
    ensures Foreign(get(IcKey(nic)), nic) ==> FirstIssue(get, nic, objs, 0) == OnIngressClass
  {
    if !objs[0].Labelled() {
      assert FirstIssue(get, nic, objs, 0) == FirstIssue(get, nic, objs, 1);
    }
  }

  /** `GetCollisionCount` returns the least count from the stored one on that is
      free, every count it passed over being taken. */
  lemma {:induction false} CountIsLeastFree(objects: Manifest, get: Reader, nic: Nic, start: nat, c: nat)
    requires start <= MAX_COLLISIONS
    ensures CountFrom(objects, get, nic, start) == Count(c) <==>
            && start <= c < MAX_COLLISIONS
            && Collides(objects, get, nic, c) == NoCollision
            && (forall d | start <= d < c :: Collides(objects, get, nic, d) == OnOther)
    decreases MAX_COLLISIONS - start
  {
    if start < MAX_COLLISIONS && Collides(objects, get, nic, start) == OnOther {
      CountIsLeastFree(objects, get, nic, start + 1, c);
    }
  }

  /** It gives up exactly when every count that is left is taken. */
  lemma {:induction false} MaxIffAllTaken(objects: Manifest, get: Reader, nic: Nic, start: nat)
    requires start <= MAX_COLLISIONS
    ensures CountFrom(objects, get, nic, start) == MaxCollisions <==>
            forall d | start <= d < MAX_COLLISIONS :: Collides(objects, get, nic, d) == OnOther
    decreases MAX_COLLISIONS - start
  {
    if start < MAX_COLLISIONS && Collides(objects, get, nic, start) == OnOther {
      MaxIffAllTaken(objects, get, nic, start + 1);
    }
  }

  /** The IngressClass does not depend on the count, so it decides before any count is passed over. */
  lemma {:induction false} IcCollisionIff(objects: Manifest, get: Reader, nic: Nic, start: nat)
    requires Shaped(objects) && start <= MAX_COLLISIONS
    ensures CountFrom(objects, get, nic, start) == IcCollision <==>
            start < MAX_COLLISIONS && !nic.IsDefault() && Foreign(get(IcKey(nic)), nic)
    decreases MAX_COLLISIONS - start
  {
    if start < MAX_COLLISIONS {
      IcIsLookedAtFirst(get, nic, objects(nic, start));
      FirstIssueIc(objects, get, nic, start, 0);
      if Collides(objects, get, nic, start) == OnOther {
        IcCollisionIff(objects, get, nic, start + 1);
      }
    }
  }

  // ---- in terms of readings ------------------------------------------------------------------

  /** Object `j` of this count is the first labelled one that is not clear. */
  ghost predicate FirstBad(objects: Manifest, get: Reader, nic: Nic, count: nat, j: nat) {
    var objs := objects(nic, count);
    && j < |objs| && objs[j].Labelled() && !Clear(get(objs[j].key), nic)
    && forall i: nat | i < j :: objs[i].Labelled() ==> Clear(get(objs[i].key), nic)
  }

  /** The scan of this count stops at an object that cannot be read. */
  ghost predicate UnreadableAt(objects: Manifest, get: Reader, nic: Nic, count: nat) {
    exists j: nat :: FirstBad(objects, get, nic, count, j) && get(objects(nic, count)[j].key).Failed?
  }

  /** It stops at an object that is there and somebody else's: the IngressClass, or another one. */
  ghost predicate ForeignAt(objects: Manifest, get: Reader, nic: Nic, count: nat, ic: bool) {
    exists j: nat :: FirstBad(objects, get, nic, count, j) && get(objects(nic, count)[j].key).Found?
                     && (objects(nic, count)[j].key.kind == IngressClass) == ic
  }

  lemma {:induction false} FirstIssueIs(get: Reader, nic: Nic, objs: seq<Managed>, i: nat, j: nat)
    requires i <= j < |objs| && objs[j].Labelled() && !Clear(get(objs[j].key), nic)
    requires forall k: nat | i <= k < j :: objs[k].Labelled() ==> Clear(get(objs[k].key), nic)
    ensures FirstIssue(get, nic, objs, i) ==
            if get(objs[j].key).Failed? then Unreadable
            else if objs[j].key.kind == IngressClass then OnIngressClass else OnOther
    decreases j - i
  {
    if i == j {
    } else {
      FirstIssueIs(get, nic, objs, i + 1, j);
    }
  }

  lemma {:induction false} FindFirstBad(objects: Manifest, get: Reader, nic: Nic, count: nat, i: nat) returns (j: nat)
    requires i <= |objects(nic, count)|
    requires forall k: nat | k < i :: objects(nic, count)[k].Labelled() ==> Clear(get(objects(nic, count)[k].key), nic)
    requires !AllClear(objects, get, nic, count)
    ensures FirstBad(objects, get, nic, count, j)
    decreases |objects(nic, count)| - i
  {
    var objs := objects(nic, count);
    if i < |objs| && objs[i].Labelled() && !Clear(get(objs[i].key), nic) {
      j := i;
    } else {
      j := FindFirstBad(objects, get, nic, count, i + 1);
    }
  }

  /** What each verdict on a count means: decided by the first object that is not clear. */
  lemma CollidesMeans(objects: Manifest, get: Reader, nic: Nic, count: nat)
    requires !nic.IsDefault()
    ensures Collides(objects, get, nic, count) == NoCollision <==> AllClear(objects, get, nic, count)
    ensures Collides(objects, get, nic, count) == Unreadable <==> UnreadableAt(objects, get, nic, count)
    ensures Collides(objects, get, nic, count) == OnIngressClass <==> ForeignAt(objects, get, nic, count, true)
    ensures Collides(objects, get, nic, count) == OnOther <==> ForeignAt(objects, get, nic, count, false)
  {
    NoCollisionIffAllClear(objects, get, nic, count);
    if AllClear(objects, get, nic, count) {
      assert forall j: nat :: !FirstBad(objects, get, nic, count, j);
    } else {
      var j := FindFirstBad(objects, get, nic, count, 0);
      FirstIssueIs(get, nic, objects(nic, count), 0, j);
      assert forall k: nat | FirstBad(objects, get, nic, count, k) :: k == j;
    }
  }

  /** The scan ends in a read error exactly if it comes to an object that cannot be read
      before it comes to a free count: an error is never taken for a collision. */
  lemma {:induction false} ReadFailedIff(objects: Manifest, get: Reader, nic: Nic, start: nat)
    requires start <= MAX_COLLISIONS && !nic.IsDefault()
    ensures CountFrom(objects, get, nic, start) == ReadFailed <==>
            exists c: nat | start <= c < MAX_COLLISIONS ::
              && UnreadableAt(objects, get, nic, c)
              && forall d: nat | start <= d < c :: ForeignAt(objects, get, nic, d, false)
    decreases MAX_COLLISIONS - start
  {
    if start == MAX_COLLISIONS {
    } else {
      CollidesMeans(objects, get, nic, start);
      ReadFailedIff(objects, get, nic, start + 1);
      if Collides(objects, get, nic, start) == OnOther && CountFrom(objects, get, nic, start + 1) == ReadFailed {
        var c: nat :| start + 1 <= c < MAX_COLLISIONS && UnreadableAt(objects, get, nic, c)
                      && forall d: nat | start + 1 <= d < c :: ForeignAt(objects, get, nic, d, false);
        assert forall d: nat | start <= d < c :: ForeignAt(objects, get, nic, d, false);
      }
    }
  }

  /** The default controller keeps the count it has, whatever is there and whatever cannot be read. */
  lemma DefaultKeepsItsCount(objects: Manifest, get: Reader, nic: Nic, start: nat)
    requires nic.IsDefault() && start < 5
    ensures CountFrom(objects, get, nic, start) == Count(start)
  {
  }
}
