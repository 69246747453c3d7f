/** Map access rights and per-map grants (kernel/src/bpf/authorization.rs). */
module Authorization {
  import opened Common

  const MAX_MAP_GRANTS: nat := 64

  /** The two defined bits of `MapAccess`. */
  datatype Access = Access(read: bool, write: bool) {
    predicate Contains(required: Access) {
      (required.read ==> read) && (required.write ==> write)
    }

    function Intersect(other: Access): (r: Access)
      ensures Contains(r) && other.Contains(r)
      ensures forall a: Access :: Contains(a) && other.Contains(a) ==> r.Contains(a)
    {
      Access(read && other.read, write && other.write)
    }

    function Union(other: Access): (r: Access)
      ensures r.Contains(this) && r.Contains(other)
      ensures forall a: Access :: a.Contains(this) && a.Contains(other) ==> a.Contains(r)
    {
      Access(read || other.read, write || other.write)
    }
  }

  const NO_ACCESS := Access(false, false)
  const READ := Access(true, false)
  const WRITE := Access(false, true)
  const READ_WRITE := Access(true, true)

  datatype Grant = Grant(owner: nat, access: Access)

  datatype GrantError = GrantLimit | GrantNoMemory

  datatype GrantResult = Granted(grants: seq<Grant>) | GrantRefused(error: GrantError)

  function Find(grants: seq<Grant>, owner: nat): (k: nat)
    ensures k <= |grants|
    ensures k < |grants| ==> grants[k].owner == owner
    ensures forall j :: 0 <= j < k ==> grants[j].owner != owner
  {
    if grants == [] then 0
    else if grants[0].owner == owner then 0
    else 1 + Find(grants[1..], owner)
  }

  function AccessFor(grants: seq<Grant>, owner: nat): Option<Access> {
    var k := Find(grants, owner);
    if k < |grants| then Some(grants[k].access) else None
  }

  /** Rights granted to an owner, with no entry meaning no rights. */
  function GrantedTo(grants: seq<Grant>, owner: nat): Access {
    match AccessFor(grants, owner)
    case Some(a) => a
    case None => NO_ACCESS
  }

  function GrantTo(grants: seq<Grant>, owner: nat, access: Access, memory: bool): GrantResult {
    var k := Find(grants, owner);
    if k < |grants| then Granted(grants[k := Grant(owner, grants[k].access.Union(access))])
    else if |grants| >= MAX_MAP_GRANTS then GrantRefused(GrantLimit)
    else if !memory then GrantRefused(GrantNoMemory)
    else Granted(grants + [Grant(owner, access)])
  }

  function Revoke(grants: seq<Grant>, owner: nat): (r: seq<Grant>)
    ensures |r| <= |grants|
    ensures forall g :: g in r <==> g in grants && g.owner != owner
  {
    if grants == [] then []
    else if grants[0].owner == owner then Revoke(grants[1..], owner)
    else [grants[0]] + Revoke(grants[1..], owner)
  }

  ghost predicate OwnersDistinct(grants: seq<Grant>) {
    forall i, j :: 0 <= i < j < |grants| ==> grants[i].owner != grants[j].owner
  }

  ghost predicate ValidGrants(grants: seq<Grant>) {
    |grants| <= MAX_MAP_GRANTS && OwnersDistinct(grants)
  }

  /** A granted right is added to what its owner had; nobody else's rights move. */
  lemma GrantEffect(grants: seq<Grant>, owner: nat, access: Access, memory: bool)
    requires ValidGrants(grants)
    ensures var r := GrantTo(grants, owner, access, memory);
            r.Granted? ==>
              && ValidGrants(r.grants)
              && AccessFor(r.grants, owner) == Some(GrantedTo(grants, owner).Union(access))
              && (forall o :: o != owner ==> AccessFor(r.grants, o) == AccessFor(grants, o))
              && (forall g :: g in r.grants ==>
                      g in grants || g == Grant(owner, GrantedTo(grants, owner).Union(access)))
  {
    var r := GrantTo(grants, owner, access, memory);
    if r.Granted? {
      var k := Find(grants, owner);
      FindUnique(r.grants, owner, k);
      forall o | o != owner
        ensures AccessFor(r.grants, o) == AccessFor(grants, o)
      {
        var m := Find(grants, o);
        if m < |grants| {
          FindUnique(r.grants, o, m);
        } else {
          assert Find(r.grants, o) == |r.grants|;
        }
      }
    }
  }

  lemma FindUnique(grants: seq<Grant>, owner: nat, k: nat)
    requires OwnersDistinct(grants) && k < |grants| && grants[k].owner == owner
    ensures Find(grants, owner) == k
  {
  }

  lemma {:induction false} RevokeDistinct(grants: seq<Grant>, owner: nat)
    requires OwnersDistinct(grants)
    ensures OwnersDistinct(Revoke(grants, owner))
  {
    if grants != [] {
      var tail := grants[1..];
      RevokeDistinct(tail, owner);
      var r, rt := Revoke(grants, owner), Revoke(tail, owner);
      if grants[0].owner != owner {
        forall i, j | 0 <= i < j < |r|
          ensures r[i].owner != r[j].owner
        {
          assert r[j] == rt[j - 1] && rt[j - 1] in tail;
          assert i > 0 ==> r[i] == rt[i - 1];
        }
      }
    }
  }

  lemma AccessForCons(g: Grant, rest: seq<Grant>, owner: nat)
    ensures AccessFor([g] + rest, owner) == if g.owner == owner then Some(g.access) else AccessFor(rest, owner)
  {
    assert ([g] + rest)[1..] == rest;
  }

  lemma {:induction false} RevokeOthers(grants: seq<Grant>, owner: nat, other: nat)
    requires other != owner
    ensures AccessFor(Revoke(grants, owner), other) == AccessFor(grants, other)
  {
    if grants != [] {
      RevokeOthers(grants[1..], owner, other);
      assert grants == [grants[0]] + grants[1..];
      AccessForCons(grants[0], grants[1..], other);
      AccessForCons(grants[0], Revoke(grants[1..], owner), other);
    }
  }

  /** Revocation removes exactly the named owner's rights. */
  lemma RevokeEffect(grants: seq<Grant>, owner: nat)
    requires ValidGrants(grants)
    ensures ValidGrants(Revoke(grants, owner))
    ensures AccessFor(Revoke(grants, owner), owner) == None
    ensures forall o :: o != owner ==> AccessFor(Revoke(grants, owner), o) == AccessFor(grants, o)
  {
    RevokeDistinct(grants, owner);
    forall o | o != owner
      ensures AccessFor(Revoke(grants, owner), o) == AccessFor(grants, o)
    {
      RevokeOthers(grants, owner, o);
    }
  }

  lemma RevokeNone(owner: nat)
    ensures Revoke([], owner) == []
  {
  }

  lemma RevokeNext(grants: seq<Grant>, owner: nat, i: nat)
    requires i < |grants|
    ensures Revoke(grants[i..], owner)
            == (if grants[i].owner == owner then [] else [grants[i]]) + Revoke(grants[i + 1..], owner)
  {
    assert grants[i..][0] == grants[i] && grants[i..][1..] == grants[i + 1..];
  }

  /** `grant_with_reservation`. */
  method GrantWithReservation(grants: seq<Grant>, owner: nat, access: Access, memory: bool) returns (r: GrantResult)
    ensures r == GrantTo(grants, owner, access, memory)
  {
    var k := 0;
    while k < |grants| && grants[k].owner != owner
      invariant k <= |grants|
      invariant forall j :: 0 <= j < k ==> grants[j].owner != owner
    {
      k := k + 1;
    }
    if k < |grants| {
      return Granted(grants[k := Grant(owner, grants[k].access.Union(access))]);
    }
    if |grants| >= MAX_MAP_GRANTS {
      return GrantRefused(GrantLimit);
    }
    if !memory {
      return GrantRefused(GrantNoMemory);
    }
    return Granted(grants + [Grant(owner, access)]);
  }

  /** `revoke_owner`: `retain` over the entries. */
  method RevokeOwner(grants: seq<Grant>, owner: nat) returns (r: seq<Grant>)
    ensures r == Revoke(grants, owner)
  {
    hide Revoke;
    r := [];
    var i := 0;
    assert grants[0..] == grants;
    RevokeNone(owner);
    while i < |grants|
      invariant i <= |grants|
      invariant r + Revoke(grants[i..], owner) == Revoke(grants, owner)
    {
      RevokeNext(grants, owner, i);
      if grants[i].owner != owner {
        r := r + [grants[i]];
      }
      i := i + 1;
    }
  }
}
