// The part of Redis the backend relies on: string keys that lapse, and sorted
// sets whose key lapses as a whole. Instants and durations are integers.
module Redis {
  import opened Wrappers

  // A string key's value and the instant from which the key reads as missing.
  datatype Cell<+V> = Cell(value: V, deadline: Option<int>)

  function Get<K, V>(cells: map<K, Cell<V>>, k: K, now: int): Option<V> {
    if k !in cells then None
    else if cells[k].deadline.Some? && cells[k].deadline.value <= now then None
    else Some(cells[k].value)
  }

  class Strings<K(==), V> {
    var cells: map<K, Cell<V>>
    var now: int

    constructor (now: int)
      ensures cells == map[] && this.now == now
    {
      cells := map[];
      this.now := now;
    }

    // Time passes.
    method Advance(d: nat)
      modifies this`now
      ensures now == old(now) + d
    {
      now := now + d;
    }

    // SET k v EX ttl NX
    method SetNxEx(k: K, v: V, ttl: int) returns (ok: bool)
      modifies this`cells
      ensures ok == Get(old(cells), k, now).None?
      ensures cells == if ok then old(cells)[k := Cell(v, Some(now + ttl))] else old(cells)
    {
      ok := Get(cells, k, now).None?;
      if ok {
        cells := cells[k := Cell(v, Some(now + ttl))];
      }
    }

    // SET k v EX ttl
    method SetEx(k: K, v: V, ttl: int)
      modifies this`cells
      ensures cells == old(cells)[k := Cell(v, Some(now + ttl))]
    {
      cells := cells[k := Cell(v, Some(now + ttl))];
    }

    // DEL k
    method Del(k: K)
      modifies this`cells
      ensures cells == old(cells) - {k}
    {
      cells := cells - {k};
    }
  }

  // A sorted set under one key. Every writer modelled here sets the expiry in
  // the same step as the ZADD, so the key always carries a deadline.
  datatype ZSet<M> = ZSet(scores: map<M, int>, deadline: int)

  // What a client sees at `now`.
  function Members<M>(z: ZSet<M>, now: int): map<M, int> {
    if now < z.deadline then z.scores else map[]
  }

  // ZREMRANGEBYSCORE key lo hi, both ends inclusive; None stands for -inf.
  function RemoveByScore<M>(z: ZSet<M>, now: int, lo: Option<int>, hi: int): ZSet<M> {
    var live := Members(z, now);
    z.(scores := map m | m in live && !((lo.None? || lo.value <= live[m]) && live[m] <= hi) :: live[m])
  }

  // ZADD key score m, then EXPIRE key ttl.
  function AddExpire<M>(z: ZSet<M>, now: int, m: M, score: int, ttl: int): ZSet<M> {
    ZSet(Members(z, now)[m := score], now + ttl)
  }

  // ZADD key NX score m, then EXPIRE key ttl.
  function AddNxExpire<M>(z: ZSet<M>, now: int, m: M, score: int, ttl: int): ZSet<M> {
    if m in Members(z, now) then ZSet(Members(z, now), now + ttl) else AddExpire(z, now, m, score, ttl)
  }

  // The least score of the members a client sees.
  ghost predicate IsOldest<M>(z: ZSet<M>, now: int, score: int) {
    score in Members(z, now).Values && forall m :: m in Members(z, now) ==> score <= Members(z, now)[m]
  }

  // ZRANGE key 0 0 WITHSCORES: the score of the oldest member.
  method OldestScore<M>(z: ZSet<M>, now: int) returns (r: Option<int>)
    ensures r.None? <==> Members(z, now) == map[]
    ensures r.Some? ==> IsOldest(z, now, r.value)
  {
    var todo := Members(z, now);
    r := None;
    while todo != map[]
      invariant todo.Keys <= Members(z, now).Keys
      invariant forall m :: m in todo ==> todo[m] == Members(z, now)[m]
      invariant r.None? <==> todo == Members(z, now)
      invariant r.Some? ==> r.value in Members(z, now).Values
      invariant r.Some? ==> forall m :: m in Members(z, now) && m !in todo ==> r.value <= Members(z, now)[m]
      decreases |todo|
    {
      var m :| m in todo;
      if r.None? || todo[m] < r.value {
        r := Some(todo[m]);
      }
      assert m in Members(z, now);
      todo := todo - {m};
    }
  }
}
