/**
  Pool membership is kept twice: in the configuration, and as a field of each
  cartridge of the inventory.
 */
module Pools {
  import opened Wrappers
  import opened ConfigFile
  import opened Configuration

  datatype Books = Books(conf: Config, poolOf: map<string, string>)

  predicate Listed(c: Config, pool: string, tape: string) { pool in c.pools && tape in c.pools[pool] }

  /** A known cartridge's field names a pool exactly if the configuration lists it there. */
  ghost predicate Agree(b: Books) {
    forall t, p :: t in b.poolOf && p != "" ==> (b.poolOf[t] == p <==> Listed(b.conf, p, t))
  }

  // ---------------------------------------------------------------- pool commands

  /** The inventory checks its own field first, then asks the configuration. */
  predicate AllowedHere(b: Books, op: Op) {
    && Allowed(b.conf, op)
    && match op
       case PoolAdd(_, t) => t in b.poolOf && b.poolOf[t] == ""
       case PoolRemove(p, t) => t in b.poolOf && b.poolOf[t] == p
       case _ => true
  }

  function After(b: Books, op: Op): Books {
    if !AllowedHere(b, op) then b
    else Books(Changed(b.conf, op),
               match op
               case PoolAdd(p, t) => b.poolOf[t := p]
               case PoolRemove(p, t) => b.poolOf[t := ""]
               case _ => b.poolOf)
  }

  function AfterAll(b: Books, ops: seq<Op>): Books
    decreases |ops|
  {
    if ops == [] then b else AfterAll(After(b, ops[0]), ops[1..])
  }

  lemma ListedOnce(c: Config, p: string, q: string, t: string)
    requires PoolsDisjoint(c)
    ensures Listed(c, p, t) && Listed(c, q, t) ==> p == q
  {
    if p in c.pools && q in c.pools && p != q { assert c.pools[p] !! c.pools[q]; }
  }

  lemma NotListed(c: Config, p: string, t: string)
    requires !InSomePool(c, t)
    ensures !Listed(c, p, t)
  {
  }

  lemma OpKeepsAgreement(b: Books, op: Op)
    requires Agree(b) && PoolsDisjoint(b.conf)
    ensures Agree(After(b, op))
  {
    var n := After(b, op);
    forall t, p | t in n.poolOf && p != "" ensures n.poolOf[t] == p <==> Listed(n.conf, p, t) {
      assert t in b.poolOf ==> (b.poolOf[t] == p <==> Listed(b.conf, p, t));
      match op
      case PoolAdd(_, tape) => if Allowed(b.conf, op) { NotListed(b.conf, p, tape); }
      case PoolRemove(pool, tape) => if Allowed(b.conf, op) { ListedOnce(b.conf, p, pool, tape); }
      case _ =>
    }
  }

  /** When the two copies agree, and no pool has the empty name, the check of the field adds nothing: a known
      cartridge can be added exactly if the pool exists and no pool has it, and removed exactly if the pool has
      it. */
  lemma CommandsAllowedIff(b: Books, pool: string, tape: string)
    requires Agree(b) && PoolsDisjoint(b.conf) && "" !in b.conf.pools
    ensures AllowedHere(b, PoolAdd(pool, tape)) <==> tape in b.poolOf && pool in b.conf.pools && !InSomePool(b.conf, tape)
    ensures AllowedHere(b, PoolRemove(pool, tape)) <==> tape in b.poolOf && Listed(b.conf, pool, tape)
    ensures AllowedHere(b, PoolDelete(pool)) <==> pool in b.conf.pools && b.conf.pools[pool] == {}
    ensures AllowedHere(b, PoolCreate(pool)) <==> pool !in b.conf.pools
  {
    if tape in b.poolOf && !InSomePool(b.conf, tape) && b.poolOf[tape] != "" {
      assert Listed(b.conf, b.poolOf[tape], tape);
    }
  }

  /** What a command that is allowed does: cartridge and pool name each other, or do not any more. */
  lemma CommandsDo(b: Books, pool: string, tape: string)
    requires Agree(b) && PoolsDisjoint(b.conf) && pool != ""
    ensures AllowedHere(b, PoolAdd(pool, tape)) ==>
              var n := After(b, PoolAdd(pool, tape));
              n.poolOf == b.poolOf[tape := pool] && Listed(n.conf, pool, tape)
    ensures AllowedHere(b, PoolRemove(pool, tape)) ==>
              var n := After(b, PoolRemove(pool, tape));
              n.poolOf == b.poolOf[tape := ""] && !Listed(n.conf, pool, tape)
    ensures forall op: Op :: !op.PoolAdd? && !op.PoolRemove? ==> After(b, op).poolOf == b.poolOf
  {
    ContentsAfter(b.conf, PoolAdd(pool, tape));
    ContentsAfter(b.conf, PoolRemove(pool, tape));
  }

  /** After an inventory and any pool commands the two copies agree. */
  lemma {:induction false} PoolBooksAgree(b: Books, ops: seq<Op>)
    requires Agree(b) && PoolsDisjoint(b.conf) && FsUnique(b.conf)
    ensures Agree(AfterAll(b, ops)) && PoolsDisjoint(AfterAll(b, ops).conf)
    decreases |ops|
  {
    if ops != [] {
      OpKeepsAgreement(b, ops[0]);
      ChangeKeeps(b.conf, ops[0]);
      PoolBooksAgree(After(b, ops[0]), ops[1..]);
    }
  }

  /** The empty field means "in no pool" for every known cartridge, exactly if a pool with the empty name, if
      there is one, has none of them. */
  lemma EmptyFieldMeansNoPoolIff(b: Books)
    requires Agree(b) && PoolsDisjoint(b.conf)
    ensures (forall t :: t in b.poolOf ==> (b.poolOf[t] == "" <==> !InSomePool(b.conf, t)))
            <==> forall t :: t in b.poolOf ==> !Listed(b.conf, "", t)
  {
    if forall t :: t in b.poolOf ==> !Listed(b.conf, "", t) {
      forall t | t in b.poolOf ensures b.poolOf[t] == "" <==> !InSomePool(b.conf, t) {
        if b.poolOf[t] == "" && InSomePool(b.conf, t) {
          var p :| p in b.conf.pools && t in b.conf.pools[p];
          assert Listed(b.conf, p, t);
        }
        if b.poolOf[t] != "" { assert Listed(b.conf, b.poolOf[t], t); }
      }
    } else {
      var t :| t in b.poolOf && Listed(b.conf, "", t);
      assert InSomePool(b.conf, t);
      ListedOnce(b.conf, "", b.poolOf[t], t);
    }
  }

  // ---------------------------------------------------------------- the inventory

  datatype InvError = TapeUnknown | InPool | NotInPool | FromConf(e: Error)

  class Inventory {
    const conf: Configuration
    var poolOf: map<string, string>

    function View(): Books
      reads this, conf
    {
      Books(conf.View(), poolOf)
    }

    ghost predicate Valid()
      reads this, conf
    {
      conf.Valid() && Agree(View())
    }

    constructor (conf: Configuration)
      requires conf.Valid()
      ensures Valid() && this.conf == conf && poolOf == map[]
    {
      this.conf := conf;
      poolOf := map[];
    }

    /** The pool part of LTFSDMInventory::inventorize: every cartridge starts without pool, cartridges that the
        library does not know leave their pools, the others get the names of theirs. */
    method Inventorize(cartridges: set<string>)
      requires conf.Valid()
      modifies this, conf
      ensures Valid() && poolOf.Keys == cartridges
      ensures Swept(old(conf.View()), View(), cartridges, {})
    {
      ghost var c0 := conf.View();
      poolOf := map t | t in cartridges :: "";
      var pools := conf.stgplist.Keys;
      while pools != {}
        invariant conf.Valid() && poolOf.Keys == cartridges && pools <= c0.pools.Keys
        invariant Swept(c0, View(), cartridges, pools)
        decreases pools
      {
        var p :| p in pools;
        SweepPool(p, cartridges, c0, pools);
        pools := pools - {p};
      }
      SweptAgrees(c0, View(), cartridges);
    }

    method SweepOne(cartridges: set<string>, p: string, t: string)
      requires conf.Valid() && poolOf.Keys == cartridges
      modifies this, conf
      ensures conf.Valid() && poolOf.Keys == cartridges && View() == AfterTape(old(View()), cartridges, p, t)
    {
      if t !in cartridges {
        var r := conf.PoolRemove(p, t);
      } else if poolOf[t] != p {
        poolOf := poolOf[t := p];
      }
    }

    /** One pool of the inventory's loop */
    method SweepPool(p: string, cartridges: set<string>, ghost c0: Config, ghost pools: set<string>)
      requires conf.Valid() && p in pools && poolOf.Keys == cartridges && pools <= conf.View().pools.Keys
      requires Swept(c0, View(), cartridges, pools)
      modifies this, conf
      ensures conf.Valid() && poolOf.Keys == cartridges && Swept(c0, View(), cartridges, pools - {p})
    {
      var tapes := conf.stgplist[p];
      while tapes != {}
        invariant conf.Valid() && poolOf.Keys == cartridges && tapes <= c0.pools[p]
        invariant SweptBut(c0, View(), cartridges, pools, p, tapes)
        decreases tapes
      {
        var t :| t in tapes;
        SweepTape(c0, View(), cartridges, pools, p, tapes, t);
        SweepOne(cartridges, p, t);
        tapes := tapes - {t};
      }
      SweptPool(c0, View(), cartridges, pools, p);
    }

    /** LTFSDMInventory::poolAdd */
    method PoolAdd(pool: string, tape: string) returns (r: Option<InvError>)
      requires Valid()
      modifies this, conf
      ensures Valid() && View() == After(old(View()), Op.PoolAdd(pool, tape))
      ensures r.None? <==> AllowedHere(old(View()), Op.PoolAdd(pool, tape))
    {
      OpKeepsAgreement(View(), Op.PoolAdd(pool, tape));
      if tape !in poolOf { return Some(TapeUnknown); }
      if poolOf[tape] != "" { return Some(InPool); }
      var e := conf.PoolAdd(pool, tape);
      if e.Some? { return Some(FromConf(e.value)); }
      poolOf := poolOf[tape := pool];
      return None;
    }

    /** LTFSDMInventory::poolRemove */
    method PoolRemove(pool: string, tape: string) returns (r: Option<InvError>)
      requires Valid()
      modifies this, conf
      ensures Valid() && View() == After(old(View()), Op.PoolRemove(pool, tape))
      ensures r.None? <==> AllowedHere(old(View()), Op.PoolRemove(pool, tape))
    {
      OpKeepsAgreement(View(), Op.PoolRemove(pool, tape));
      if tape !in poolOf { return Some(TapeUnknown); }
      if poolOf[tape] != pool { return Some(NotInPool); }
      var e := conf.PoolRemove(pool, tape);
      if e.Some? { return Some(FromConf(e.value)); }
      poolOf := poolOf[tape := ""];
      return None;
    }

    /** LTFSDMInventory::poolDelete */
    method PoolDelete(pool: string) returns (r: Option<InvError>)
      requires Valid()
      modifies conf
      ensures Valid() && View() == After(old(View()), Op.PoolDelete(pool))
      ensures r.None? <==> AllowedHere(old(View()), Op.PoolDelete(pool))
    {
      OpKeepsAgreement(View(), Op.PoolDelete(pool));
      var e := conf.PoolDelete(pool);
      if e.Some? { return Some(FromConf(e.value)); }
      return None;
    }
  }

  /** The inventory has dealt with all pools but `pools`. */
  ghost predicate Swept(c0: Config, b: Books, cartridges: set<string>, pools: set<string>) {
    && PoolsDisjoint(c0) && b.conf.fss == c0.fss && b.conf.pools.Keys == c0.pools.Keys
    && (forall p :: p in c0.pools ==> b.conf.pools[p] == if p in pools then c0.pools[p] else c0.pools[p] * cartridges)
    && (forall t, p :: t in b.poolOf && p != "" ==>
          (b.poolOf[t] == p <==> p !in pools && Listed(c0, p, t)))
  }

  /** And of pool `p` with all tapes but `tapes`. */
  ghost predicate SweptBut(c0: Config, b: Books, cartridges: set<string>, pools: set<string>, p: string, tapes: set<string>) {
    && PoolsDisjoint(c0) && b.conf.fss == c0.fss && b.conf.pools.Keys == c0.pools.Keys
    && p in c0.pools && b.conf.pools[p] == c0.pools[p] * (cartridges + tapes)
    && (forall q :: q in c0.pools && q != p ==>
          b.conf.pools[q] == if q in pools then c0.pools[q] else c0.pools[q] * cartridges)
    && (forall t, q :: t in b.poolOf && q != "" ==>
          (b.poolOf[t] == q <==> Listed(c0, q, t) && (if q == p then t !in tapes else q !in pools)))
  }

  /** What the inventory does with one tape of a pool */
  function AfterTape(b: Books, cartridges: set<string>, p: string, t: string): (n: Books)
    ensures n.conf.pools.Keys == b.conf.pools.Keys
  {
    if t !in cartridges then b.(conf := Changed(b.conf, Op.PoolRemove(p, t)))
    else if t in b.poolOf && b.poolOf[t] != p then b.(poolOf := b.poolOf[t := p])
    else b
  }

  lemma SweepTape(c0: Config, b: Books, cartridges: set<string>, pools: set<string>, p: string, tapes: set<string>, t: string)
    requires SweptBut(c0, b, cartridges, pools, p, tapes) && b.poolOf.Keys == cartridges && p in pools
    requires t in tapes && tapes <= c0.pools[p]
    ensures SweptBut(c0, AfterTape(b, cartridges, p, t), cartridges, pools, p, tapes - {t})
  {
    var n := AfterTape(b, cartridges, p, t);
    if t !in cartridges {
      assert t in b.conf.pools[p];
      assert n.conf.pools[p] == c0.pools[p] * (cartridges + (tapes - {t}));
    } else {
      assert cartridges + (tapes - {t}) == cartridges + tapes;
      forall q ensures Listed(c0, q, t) ==> q == p {
        ListedOnce(c0, p, q, t);
      }
    }
  }

  lemma SweptPool(c0: Config, b: Books, cartridges: set<string>, pools: set<string>, p: string)
    requires SweptBut(c0, b, cartridges, pools, p, {}) && p in pools
    ensures Swept(c0, b, cartridges, pools - {p})
  {
    assert cartridges + {} == cartridges;
  }

  /** After the inventory the copies agree, and each pool has kept exactly the tapes that the library knows. */
  lemma SweptAgrees(c0: Config, b: Books, cartridges: set<string>)
    requires Swept(c0, b, cartridges, {}) && b.poolOf.Keys == cartridges
    ensures Agree(b) && forall p :: p in c0.pools ==> p in b.conf.pools && b.conf.pools[p] == c0.pools[p] * cartridges
  {
    forall t, p | t in b.poolOf && p != "" ensures b.poolOf[t] == p <==> Listed(b.conf, p, t) {
      assert Listed(c0, p, t) <==> Listed(b.conf, p, t);
    }
  }
}
