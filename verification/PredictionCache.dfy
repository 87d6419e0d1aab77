/** The prediction cache: its keys, its entries and the in-process store. */
module PredictionCache {
  import opened Prelude

  /** Everything that must be identical for two predictions to share an entry.
      `temperature` is in thousandths; the key itself is taken to be injective,
      so the inputs stand for it. */
  datatype KeyInputs = KeyInputs(task: string, promptVersion: int, model: string, systemPrompt: string,
                                 renderedPrompt: string, temperature: int, maxTokens: int, outputSchema: string,
                                 images: seq<string>)

  datatype Entry = Entry(model: string, provider: string, rawResponse: string, output: Option<string>,
                         outputValid: Option<bool>, inputTokens: int, outputTokens: int, totalTokens: int)

  const DEFAULT_TTL := 86_400 * SECOND

  /** One Set, with the time to live it was stored under. */
  datatype Put<K, V> = Put(key: K, value: V, ttl: int, at: int)

  function Expiry<K, V>(p: Put<K, V>): int {
    p.at + (if p.ttl <= 0 then DEFAULT_TTL else p.ttl)
  }

  /** Set number `i` is of key `k`, and none after it is. */
  predicate IsLatest<K(==), V>(puts: seq<Put<K, V>>, k: K, i: nat) {
    i < |puts| && puts[i].key == k && forall j :: i < j < |puts| ==> puts[j].key != k
  }

  /** The latest Set of a key. */
  function Latest<K(==), V>(puts: seq<Put<K, V>>, k: K): (r: Option<Put<K, V>>)
    ensures r.Some? ==> exists i :: 0 <= i < |puts| && IsLatest(puts, k, i) && puts[i] == r.value
    ensures r.None? ==> forall i :: 0 <= i < |puts| ==> puts[i].key != k
  {
    if puts == [] then None
    else if Last(puts).key == k then
      assert IsLatest(puts, k, |puts| - 1);
      Some(Last(puts))
    else
      var r := Latest(Front(puts), k);
      assert forall i :: 0 <= i < |puts| - 1 && IsLatest(Front(puts), k, i) ==> IsLatest(puts, k, i);
      r
  }

  /** The value of the latest Set, while it has not expired. */
  function Current<K(==), V>(puts: seq<Put<K, V>>, k: K, now: int): Option<V> {
    match Latest(puts, k)
    case Some(p) => if now > Expiry(p) then None else Some(p.value)
    case None => None
  }

  /** A Set is what Get returns, until its time to live is over (a day when none
      is given), and no other key notices it. */
  lemma SetThenGet<K, V>(puts: seq<Put<K, V>>, k: K, v: V, ttl: int, at: int, other: K, now: int)
    ensures var after := puts + [Put(k, v, ttl, at)];
            && Current(after, k, now)
               == (if now <= at + (if ttl > 0 then ttl else 24 * 3600 * SECOND) then Some(v) else None)
            && (other != k ==> Current(after, other, now) == Current(puts, other, now))
  {
    FrontOfAppend(puts, Put(k, v, ttl, at));
  }

  datatype Stored<V> = Stored(value: V, expiresAt: int)

  /** The store evicts lazily, on a Get that finds an expired entry. */
  class Memory<K(!new, ==), V(!new)> {
    var entries: map<K, Stored<V>>
    ghost var puts: seq<Put<K, V>>
    ghost var clock: int

    /** What is stored is the latest Set; what is missing was never set or has expired. */
    ghost predicate Valid()
      reads this
    {
      forall k :: match Latest(puts, k)
                  case Some(p) => if k in entries then entries[k] == Stored(p.value, Expiry(p)) else clock > Expiry(p)
                  case None => k !in entries
    }

    constructor ()
      ensures Valid() && puts == [] && clock == 0
    {
      entries := map[];
      puts, clock := [], 0;
    }

    method Get(key: K, now: int) returns (r: Option<V>)
      requires Valid() && now >= clock
      modifies this
      ensures Valid() && puts == old(puts) && clock == now
      ensures r == Current(puts, key, now)
    {
      clock := now;
      if key !in entries {
        return None;
      }
      var e := entries[key];
      if now > e.expiresAt {
        entries := entries - {key};
        return None;
      }
      return Some(e.value);
    }

    method Set(key: K, value: V, ttl: int, now: int)
      requires Valid() && now >= clock
      modifies this
      ensures Valid() && puts == old(puts) + [Put(key, value, ttl, now)] && clock == now
    {
      var life := if ttl <= 0 then DEFAULT_TTL else ttl;
      entries := entries[key := Stored(value, now + life)];
      FrontOfAppend(puts, Put(key, value, ttl, now));
      puts, clock := puts + [Put(key, value, ttl, now)], now;
    }
  }
}
