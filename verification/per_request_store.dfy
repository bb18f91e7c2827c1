/** The bounded per-request table: request id to a row of keys and values. When it is full,
    some other request's whole row is evicted. */
module PerRequestStores {
  import opened Wrappers
  import opened PrefixHashes
  import opened PrefixCache

  /** The cached prefix-hash row: handed out by reference and extended in place. */
  class Checkpoint {
    var hashStrs: seq<string>
    var parentHash: Digest

    constructor (hashes: seq<string>, parent: Digest)
      ensures hashStrs == hashes && parentHash == parent
    {
      hashStrs, parentHash := hashes, parent;
    }

    ghost function View(): Row
      reads this
    {
      Row(hashStrs, parentHash)
    }
  }

  datatype Value = Number(n: int) | Replica(id: string) | Cached(checkpoint: Checkpoint)

  type Fields = map<string, Value>
  type Rows = map<string, Fields>

  function FieldsOf(rows: Rows, rid: string): Fields {
    if rid in rows then rows[rid] else map[]
  }

  /** `key` dropped from the rows of `picked`, emptied rows pruned. */
  ghost function Dropped(rows: Rows, picked: set<string>, key: string): (r: Rows)
    ensures forall rid | rid in r :: rid in rows && r[rid] == (if rid in picked then rows[rid] - {key} else rows[rid])
    ensures forall rid | rid in rows && rid !in r :: rid in picked && rows[rid] - {key} == map[]
    ensures forall rid | rid in r && rid in picked :: r[rid] != map[]
  {
    map rid | rid in rows && (rid in picked ==> rows[rid] - {key} != map[]) ::
      if rid in picked then rows[rid] - {key} else rows[rid]
  }

  lemma DropOneMore(rows: Rows, picked: set<string>, rid: string, key: string)
    ensures Dropped(Dropped(rows, picked, key), {rid}, key) == Dropped(rows, picked + {rid}, key)
  {
    forall r | r in rows ensures rows[r] - {key} - {key} == rows[r] - {key} {
    }
  }

  /** Writing the row of `rid` may cost one other request its row, and only when the table is full. */
  ghost predicate MayGo(before: Rows, rid: string, gone: set<string>, maxSize: nat) {
    && gone <= before.Keys && rid !in gone
    && (gone == {} || (exists victim :: gone == {victim}))
    && (rid in before || |before| < maxSize ==> gone == {})
  }

  class PerRequestStore {
    const maxSize: nat
    var data: Rows

    /** The table is bounded and no row is empty. */
    ghost predicate Valid()
      reads this
    {
      1 <= maxSize && |data| <= maxSize && forall rid | rid in data :: data[rid] != map[]
    }

    constructor (maxSize: nat)
      requires 1 <= maxSize
      ensures Valid() && this.maxSize == maxSize && data == map[]
    {
      this.maxSize := maxSize;
      data := map[];
    }

    function Get(rid: string, key: string): Option<Value>
      reads this
    {
      if rid in data && key in data[rid] then Some(data[rid][key]) else None
    }

    /** Store a row; a new row in a full table evicts some other row. */
    method Put(rid: string, fields: Fields) returns (ghost gone: set<string>)
      requires Valid() && fields != map[]
      modifies this
      ensures Valid() && MayGo(old(data), rid, gone, maxSize)
      ensures data == (old(data) - gone)[rid := fields]
    {
      gone := {};
      if rid !in data && |data| == maxSize {
        var victim :| victim in data;
        gone := {victim};
        data := data - {victim};
        KeysLess(old(data), victim);
      }
      assert data == old(data) - gone;
      KeysMore(data, rid, fields);
      data := data[rid := fields];
    }

    method Set(rid: string, key: string, value: Value) returns (ghost gone: set<string>)
      requires Valid()
      modifies this
      ensures Valid() && MayGo(old(data), rid, gone, maxSize)
      ensures data == (old(data) - gone)[rid := FieldsOf(old(data), rid)[key := value]]
    {
      var fields := FieldsOf(data, rid)[key := value];
      assert key in fields;
      gone := Put(rid, fields);
    }

    /** Add to a numeric field, starting from 0, and return the new value. */
    method Incr(rid: string, key: string, delta: int) returns (r: Result<int>, ghost gone: set<string>)
      requires Valid()
      modifies this
      ensures Valid() && MayGo(old(data), rid, gone, maxSize)
      ensures var was := old(Get(rid, key));
              if was.Some? && !was.value.Number? then r == Err(ValueRejected) && data == old(data)
              else
                var n := (if was.Some? then was.value.n else 0) + delta;
                r == Ok(n) && data == (old(data) - gone)[rid := FieldsOf(old(data), rid)[key := Number(n)]]
    {
      var was := Get(rid, key);
      if was.Some? && !was.value.Number? {
        return Err(ValueRejected), {};
      }
      var n := (if was.Some? then was.value.n else 0) + delta;
      gone := Set(rid, key, Number(n));
      r := Ok(n);
    }

    /** Drop one field of one row; an emptied row goes too. */
    method Delete(rid: string, key: string)
      requires Valid()
      modifies this
      ensures Valid() && data == Dropped(old(data), {rid}, key)
    {
      if rid !in data {
        assert data == Dropped(data, {rid}, key);
        return;
      }
      var fields := data[rid] - {key};
      if fields == map[] {
        data := data - {rid};
      } else {
        data := data[rid := fields];
      }
      assert data == Dropped(old(data), {rid}, key);
      SubsetSize(data.Keys, old(data).Keys);
    }

    /** Drop a field from the given rows, one by one, and prune the emptied ones. */
    method DropFromRows(key: string, picked: set<string>) returns (touched: nat)
      requires Valid() && picked <= data.Keys
      modifies this
      ensures Valid() && data == Dropped(old(data), picked, key) && touched == |picked|
    {
      touched := 0;
      var rest := picked;
      ghost var done: set<string> := {};
      assert data == Dropped(data, done, key);
      hide Dropped;
      while rest != {}
        invariant rest + done == picked && touched + |rest| == |picked|
        invariant Valid() && data == Dropped(old(data), done, key)
      {
        var rid :| rid in rest;
        DropOneMore(old(data), done, rid, key);
        Delete(rid, key);
        rest, done, touched := rest - {rid}, done + {rid}, touched + 1;
      }
    }

    method DeleteWhere(key: string, value: Value) returns (touched: nat)
      requires Valid()
      modifies this
      ensures Valid()
      ensures var picked := set rid | rid in old(data) && key in old(data)[rid] && old(data)[rid][key] == value;
              touched == |picked| && data == Dropped(old(data), picked, key)
      ensures forall rid | rid in data && key in data[rid] :: data[rid][key] != value
    {
      var picked := set rid | rid in data && key in data[rid] && data[rid][key] == value;
      touched := DropFromRows(key, picked);
    }

    method DeleteKey(key: string) returns (touched: nat)
      requires Valid()
      modifies this
      ensures Valid()
      ensures var picked := set rid | rid in old(data) && key in old(data)[rid];
              touched == |picked| && data == Dropped(old(data), picked, key)
      ensures forall rid | rid in data :: key !in data[rid]
    {
      var picked := set rid | rid in data && key in data[rid];
      touched := DropFromRows(key, picked);
    }
  }

  lemma KeysLess(rows: Rows, victim: string)
    requires victim in rows
    ensures |rows - {victim}| == |rows| - 1
  {
    assert (rows - {victim}).Keys == rows.Keys - {victim};
  }

  lemma KeysMore(rows: Rows, rid: string, fields: Fields)
    ensures |rows[rid := fields]| == if rid in rows then |rows| else |rows| + 1
  {
    assert rows[rid := fields].Keys == rows.Keys + {rid};
  }

  lemma SubsetSize<T>(a: set<T>, b: set<T>)
    requires a <= b
    ensures |a| <= |b|
  {
    assert b == a + (b - a);
  }
}
