/** The reference counting of configuration objects (mgmt/ProxyConfig.cc). */
module ConfigCounting {

  const MAX_CONFIGS := 100

  /** How often x occurs in a list. */
  ghost function Count<T>(s: seq<T>, x: T): nat {
    if s == [] then 0 else Count(s[..|s| - 1], x) + if s[|s| - 1] == x then 1 else 0
  }

  lemma {:induction false} CountPositive<T>(s: seq<T>, x: T)
    ensures Count(s, x) > 0 <==> x in s
  {
    if s != [] {
      var front := s[..|s| - 1];
      CountPositive(front, x);
      assert s == front + [s[|s| - 1]];
    }
  }

  lemma {:induction false} CountConcat<T>(s: seq<T>, t: seq<T>, x: T)
    ensures Count(s + t, x) == Count(s, x) + Count(t, x)
  {
    if t == [] {
      assert s + t == s;
    } else {
      assert (s + t)[..|s + t| - 1] == s + t[..|t| - 1];
      CountConcat(s, t[..|t| - 1], x);
    }
  }

  lemma {:induction false} CountSplit<T>(s: seq<T>, i: nat, x: T)
    requires i < |s|
    ensures Count(s, x) == Count(s[..i], x) + (if s[i] == x then 1 else 0) + Count(s[i + 1..], x)
  {
    var last := |s| - 1;
    if i < last {
      CountSplit(s[..last], i, x);
      assert s[..last][..i] == s[..i];
      assert s[..last][i + 1..] == s[i + 1..][..last - i - 1];
    }
  }

  lemma CountUpdate<T>(s: seq<T>, i: nat, v: T, x: T)
    requires i < |s|
    ensures Count(s[i := v], x) + (if s[i] == x then 1 else 0) == Count(s, x) + if v == x then 1 else 0
  {
    CountSplit(s, i, x);
    CountSplit(s[i := v], i, x);
    assert s[i := v][..i] == s[..i] && s[i := v][i + 1..] == s[i + 1..];
  }

  /** A list without its i-th element. */
  function Without<T>(s: seq<T>, i: nat): (r: seq<T>)
    requires i < |s|
    ensures |r| == |s| - 1
  {
    s[..i] + s[i + 1..]
  }

  lemma CountWithout<T>(s: seq<T>, i: nat, x: T)
    requires i < |s|
    ensures Count(Without(s, i), x) + (if s[i] == x then 1 else 0) == Count(s, x)
  {
    CountSplit(s, i, x);
    CountConcat(s[..i], s[i + 1..], x);
  }

  /** ConfigInfo: an object with a reference count. */
  class ConfigInfo {
    var refcount: int
    ghost var deletions: nat

    constructor ()
      ensures refcount == 0 && deletions == 0
    {
      refcount, deletions := 0, 0;
    }
  }

  datatype Op = Set(id: nat) | Get(id: nat) | Release(id: nat, i: nat) | Fire(i: nat)

  class ConfigProcessor {
    const infos: array<ConfigInfo?>
    var ninfos: nat
    var releasers: seq<ConfigInfo>   // scheduled ConfigInfoReleasers
    var held: seq<ConfigInfo>        // handed out by get and not yet released
    ghost var leaked: seq<ConfigInfo>
    ghost var known: set<ConfigInfo> // every object ever given to set
    ghost var given: set<nat>        // the slot numbers set has chosen itself

    constructor ()
      ensures Valid() && fresh(infos) && known == {} && ninfos == 0 && releasers == held == leaked == []
      ensures forall i :: 0 <= i < infos.Length ==> infos[i] == null
    {
      infos := new ConfigInfo?[MAX_CONFIGS](_ => null);
      ninfos, releasers, held, leaked, known, given := 0, [], [], [], {}, {};
    }

    ghost function References(c: ConfigInfo): nat
      reads this`releasers, this`held, this`leaked, infos
    {
      Count(infos[..], c) + Count(releasers, c) + Count(held, c) + Count(leaked, c)
    }

    lemma Unreferenced(c: ConfigInfo)
      ensures References(c) == 0 <==> c !in infos[..] && c !in releasers && c !in held && c !in leaked
    {
      CountPositive<ConfigInfo?>(infos[..], c);
      CountPositive(releasers, c);
      CountPositive(held, c);
      CountPositive(leaked, c);
    }

    /** An object's count is the number of its slots, scheduled releasers and outstanding gets, and
        of the references lost to an invalid index; it has been deleted exactly if that is zero. */
    ghost predicate Counted(c: ConfigInfo)
      reads this`releasers, this`held, this`leaked, infos, c
    {
      c.refcount == References(c) && c.deletions == if References(c) == 0 then 1 else 0
    }

    ghost predicate Closed()
      reads this`releasers, this`held, this`leaked, this`known, this`ninfos, this`given, infos
    {
      && infos.Length == MAX_CONFIGS
      && (forall r :: r in given ==> 0 < r <= ninfos)
      && (forall i :: 0 <= i < infos.Length && infos[i] != null ==> infos[i] in known)
      && (forall c :: c in releasers ==> c in known)
      && (forall c :: c in held ==> c in known)
      && (forall c :: c in leaked ==> c in known)
    }

    ghost predicate Valid()
      reads this`releasers, this`held, this`leaked, this`known, this`ninfos, this`given, infos, known
    {
      Closed() && forall c :: c in known ==> Counted(c)
    }

    /** What set does with a valid slot: the old object's reference goes to a releaser. */
    method Install(id: nat, info: ConfigInfo)
      requires Valid() && info !in known && info.refcount == 0 && info.deletions == 0 && 0 < id <= MAX_CONFIGS
      modifies this`releasers, this`known, infos, info`refcount
      ensures Valid() && known == old(known) + {info} && info.refcount == 1
      ensures infos[..] == old(infos[..])[id - 1 := info]
      ensures releasers == old(releasers) + if old(infos[id - 1]) == null then [] else [old(infos[id - 1])]
    {
      Unreferenced(info);
      info.refcount := info.refcount + 1;
      known := known + {info};
      var oldInfo := infos[id - 1];
      infos[id - 1] := info;
      assert infos[..] == old(infos[..])[id - 1 := info];
      if oldInfo != null {
        releasers := releasers + [oldInfo];
      }
      forall c | c in known
        ensures Counted(c)
      {
        CountUpdate(old(infos[..]), id - 1, info, c);
        if oldInfo != null {
          CountConcat(old(releasers), [oldInfo], c);
        }
        if c != info {
          assert old(Counted(c));
          assert References(c) == old(References(c));
        }
      }
    }

    /** The number of the slot that set uses. */
    method Choose(id: nat) returns (r: nat)
      requires Valid()
      modifies this`ninfos, this`given
      ensures Valid() && r > 0 && r == if id == 0 then old(ninfos) + 1 else id
      ensures ninfos == old(ninfos) + if id == 0 then 1 else 0
      ensures id == 0 ==> r !in old(given) && given == old(given) + {r}
      ensures id != 0 ==> given == old(given)
    {
      r := id;
      if r == 0 {
        ninfos := ninfos + 1;
        r := ninfos;
        given := given + {r};
      }
    }

    /** set.  For index 0 it chooses a slot number that it has not chosen before.  An index beyond the last slot
        is reported, but the reference taken for it is never given up: the object is leaked exactly then. */
    method Set(id: nat, info: ConfigInfo) returns (r: nat)
      requires Valid() && info !in known && info.refcount == 0 && info.deletions == 0
      modifies this`ninfos, this`releasers, this`leaked, this`known, this`given, infos, info`refcount
      ensures Valid() && known == old(known) + {info} && info.refcount == 1
      ensures ninfos == if id == 0 then old(ninfos) + 1 else old(ninfos)
      ensures r == if id > MAX_CONFIGS || (id == 0 && old(ninfos) >= MAX_CONFIGS) then 0 else if id == 0 then old(ninfos) + 1 else id
      ensures id == 0 && r > 0 ==> r !in old(given) && given == old(given) + {r}
      ensures id != 0 ==> given == old(given)
      ensures r > 0 ==>
        && infos[..] == old(infos[..])[r - 1 := info] && leaked == old(leaked)
        && releasers == old(releasers) + if old(infos[r - 1]) == null then [] else [old(infos[r - 1])]
      ensures r == 0 ==> infos[..] == old(infos[..]) && releasers == old(releasers) && leaked == old(leaked) + [info]
    {
      r := Choose(id);
      if r <= MAX_CONFIGS {
        Install(r, info);
      } else {
        Leak(info);
        r := 0;
      }
    }

    /** What set does with an invalid slot. */
    method Leak(info: ConfigInfo)
      requires Valid() && info !in known && info.refcount == 0 && info.deletions == 0
      modifies this`leaked, this`known, info`refcount
      ensures Valid() && known == old(known) + {info} && info.refcount == 1 && leaked == old(leaked) + [info]
    {
      Unreferenced(info);
      info.refcount := info.refcount + 1;
      known := known + {info};
      leaked := leaked + [info];
      forall c | c in known
        ensures Counted(c)
      {
        CountConcat(old(leaked), [info], c);
        if c != info {
          assert old(Counted(c));
        }
      }
    }

    /** get, as one step.  There is at least the slot's reference besides the one handed out. */
    method Get(id: nat) returns (info: ConfigInfo?)
      requires Valid() && (0 < id <= MAX_CONFIGS ==> infos[id - 1] != null)
      modifies this`held
      modifies if 0 < id <= MAX_CONFIGS then {infos[id - 1]} else {}
      ensures Valid()
      ensures info == if 0 < id <= MAX_CONFIGS then infos[id - 1] else null
      ensures held == old(held) + if info == null then [] else [info]
      ensures info != null ==> info.refcount == old(infos[id - 1].refcount) + 1 > 1 && info.deletions == 0
    {
      if id == 0 || id > MAX_CONFIGS {
        return null;
      }
      info := infos[id - 1];
      assert Counted(info) && info in infos[..];
      Unreferenced(info);
      info.refcount := info.refcount + 1;
      held := held + [info];
      forall c | c in known
        ensures Counted(c)
      {
        CountConcat(old(held), [info], c);
        if c != info {
          assert old(Counted(c));
        }
      }
    }

    /** release's decrement of one of the references to an object.  The object is deleted exactly
        when that was the last one; then no slot holds it, as the source asserts. */
    method Decrement(info: ConfigInfo)
      requires Closed() && info in known && info.refcount == References(info) + 1 && info.deletions == 0
      requires forall c :: c in known && c != info ==> Counted(c)
      modifies info
      ensures Valid()
      ensures info.refcount == old(info.refcount) - 1
      ensures info.deletions == if info.refcount == 0 then 1 else 0
      ensures info.refcount == 0 ==> info !in infos[..] && info !in releasers && info !in held
    {
      Unreferenced(info);
      info.refcount := info.refcount - 1;
      if info.refcount == 0 {
        info.deletions := info.deletions + 1;
      }
    }

    /** release, called for an object that get handed out. */
    method Release(id: nat, info: ConfigInfo, i: nat)
      requires Valid() && 0 < id <= MAX_CONFIGS && i < |held| && held[i] == info
      modifies this`held, info
      ensures Valid() && held == Without(old(held), i)
      ensures info.refcount == old(info.refcount) - 1
      ensures info.deletions == if info.refcount == 0 then 1 else 0
    {
      Unreferenced(info);
      held := Without(held, i);
      forall c | c in known
        ensures References(c) == old(References(c)) - if c == info then 1 else 0
      {
        CountWithout(old(held), i, c);
      }
      assert forall c :: c in known ==> old(Counted(c));
      Decrement(info);
    }

    /** A ConfigInfoReleaser's event. */
    method Fire(i: nat) returns (info: ConfigInfo)
      requires Valid() && i < |releasers|
      modifies this`releasers, releasers
      ensures Valid() && info == old(releasers[i]) && releasers == Without(old(releasers), i)
      ensures info.refcount == old(releasers[i].refcount) - 1
      ensures info.deletions == if info.refcount == 0 then 1 else 0
    {
      Unreferenced(releasers[i]);
      info := releasers[i];
      releasers := Without(releasers, i);
      forall c | c in known
        ensures References(c) == old(References(c)) - if c == info then 1 else 0
      {
        CountWithout(old(releasers), i, c);
      }
      assert forall c :: c in known ==> old(Counted(c));
      Decrement(info);
    }

    /** An object that was ever set has been deleted, once, exactly if no slot, no releaser and no
        client holds it, and it was not given an invalid index. */
    lemma DeletedIffUnused(c: ConfigInfo)
      requires Valid() && c in known
      ensures c.deletions <= 1
      ensures c.deletions == 1 <==> c !in infos[..] && c !in releasers && c !in held && c !in leaked
    {
      assert Counted(c);
      Unreferenced(c);
    }

    /** One operation of any client or releaser; a get of an empty slot, which the source does not
        survive, and a release of nothing are left out. */
    method Step(op: Op)
      requires Valid()
      modifies this, infos, known
      ensures Valid() && old(known) <= known && fresh(known - old(known)) && old(leaked) <= leaked
    {
      match op {
        case Set(id) =>
          var info := new ConfigInfo();
          var r := Set(id, info);
        case Get(id) =>
          if 0 < id <= MAX_CONFIGS && infos[id - 1] != null {
            var info := Get(id);
          }
        case Release(id, i) =>
          if 0 < id <= MAX_CONFIGS && i < |held| {
            Release(id, held[i], i);
          }
        case Fire(i) =>
          if i < |releasers| {
            var info := Fire(i);
          }
      }
    }

    /** Any run: the counts stay exact, and an object given an invalid index is never deleted. */
    method Run(ops: seq<Op>)
      requires Valid()
      modifies this, infos, known
      ensures Valid() && old(known) <= known && old(leaked) <= leaked
      ensures forall c :: c in old(leaked) ==> c.deletions == 0
    {
      for n := 0 to |ops|
        invariant Valid() && old(known) <= known && fresh(known - old(known)) && old(leaked) <= leaked
      {
        Step(ops[n]);
      }
      forall c | c in old(leaked)
        ensures c.deletions == 0
      {
        assert c in leaked;
        DeletedIffUnused(c);
      }
    }
  }

  /** An object set at index 101 is never deleted, even if nothing else ever happens to it. */
  method SetBeyondLastSlot() returns (p: ConfigProcessor, info: ConfigInfo, r: nat)
    ensures r == 0 && info.refcount == 1 && info.deletions == 0
    ensures info !in p.infos[..] && info !in p.releasers && info !in p.held
  {
    p := new ConfigProcessor();
    info := new ConfigInfo();
    r := p.Set(101, info);
    p.DeletedIffUnused(info);
    assert forall i :: 0 <= i < MAX_CONFIGS ==> p.infos[..][i] == null;
  }
}
