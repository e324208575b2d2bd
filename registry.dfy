/** The template registry: the `templates` object store of IndexedDB (key
    path `id`, unique index `byName` on `name`: app.js:96-98) and the page
    state that mirrors it (`state.templates`, `state.activeTemplateId`,
    `state.active`: app.js:134-139), with bootstrap (app.js:177-188),
    `setActiveTemplate` (app.js:215-222), `persistActive` (app.js:238-245),
    the create, clone and delete buttons (app.js:732-765), the backup import
    (app.js:842-869) and the row edits on the active template (app.js:518,
    611-629, 803-812). */
module Registry {
  import opened Json
  import opened Rows
  import opened Ledger

  ghost predicate DistinctNames(ts: seq<Template>)
  {
    forall i, j :: 0 <= i < j < |ts| ==> ts[i].name != ts[j].name
  }

  ghost predicate DistinctIds(ts: seq<Template>)
  {
    forall i, j :: 0 <= i < j < |ts| ==> ts[i].id != ts[j].id
  }

  /** `templates.some(t => t.name === name)`. */
  predicate HasName(ts: seq<Template>, name: string)
  {
    exists i :: 0 <= i < |ts| && ts[i].name == name
  }

  /** Some template has the id. */
  predicate HasTemplate(ts: seq<Template>, id: string)
  {
    exists i :: 0 <= i < |ts| && ts[i].id == id
  }

  /** `templates.find(t => t.id === id)`, as an index: the first template with
      the id, or -1. */
  function IndexOf(ts: seq<Template>, id: string): (i: int)
    ensures -1 <= i < |ts|
    ensures i == -1 <==> !HasTemplate(ts, id)
    ensures 0 <= i ==> ts[i].id == id && forall j :: 0 <= j < i ==> ts[j].id != id
  {
    if ts == [] then -1
    else if ts[0].id == id then 0
    else
      var j := IndexOf(ts[1..], id);
      assert forall k :: 0 < k < |ts| ==> ts[k] == ts[1..][k - 1];
      if j == -1 then -1 else j + 1
  }

  /** Another record than the one with `t`'s key already has `t`'s name: the
      unique `byName` index refuses `t`. */
  predicate NameTaken(db: seq<Template>, t: Template)
  {
    exists i :: 0 <= i < |db| && db[i].name == t.name && db[i].id != t.id
  }

  /** `put(t)` on the store: refused (`ConstraintError`) when `t`'s name
      belongs to a record with another key; otherwise `t` replaces the record
      with its key, or is added. */
  function Put(db: seq<Template>, t: Template): (r: Option<seq<Template>>)
    ensures r.None? <==> NameTaken(db, t)
    ensures r.Some? ==> t in r.value && |r.value| >= |db|
    ensures r.Some? ==> forall x :: x in r.value ==> x == t || x in db
    ensures r.Some? ==> forall x :: x in db && x.id != t.id ==> x in r.value
    ensures r.Some? && DistinctNames(db) && DistinctIds(db) ==> DistinctNames(r.value) && DistinctIds(r.value)
  {
    if NameTaken(db, t) then None
    else
      var i := IndexOf(db, t.id);
      if i >= 0 then
        var r := db[i := t];
        assert forall x :: x in r ==> x == t || x in db by {
          forall x | x in r ensures x == t || x in db {
            var j :| 0 <= j < |r| && r[j] == x;
            if j != i { assert x == db[j]; }
          }
        }
        assert forall x :: x in db && x.id != t.id ==> x in r by {
          forall x | x in db && x.id != t.id ensures x in r {
            var j :| 0 <= j < |db| && db[j] == x;
            assert r[j] == x;
          }
        }
        assert r[i] == t;
        Some(r)
      else Some(db + [t])
  }

  /** `delete(id)` on the store: the record with the key goes. */
  function DeleteKey(db: seq<Template>, id: string): (r: seq<Template>)
    ensures !HasTemplate(r, id)
    ensures forall x :: x in r <==> x in db && x.id != id
    ensures !HasTemplate(db, id) ==> r == db
  {
    if db == [] then []
    else
      var init := db[..|db| - 1];
      var last := db[|db| - 1];
      var rest := DeleteKey(init, id);
      assert forall x :: x in db <==> x in init || x == last;
      if last.id == id then rest
      else
        assert db == init + [last];
        assert HasTemplate(init, id) ==> HasTemplate(db, id) by {
          if HasTemplate(init, id) {
            var j :| 0 <= j < |init| && init[j].id == id;
            assert db[j] == init[j];
          }
        }
        rest + [last]
  }

  /** As keys are distinct, deleting removes at most one record and keeps
      the keys distinct. */
  lemma {:induction false} DeleteKeyIds(db: seq<Template>, id: string)
    requires DistinctIds(db)
    ensures DistinctIds(DeleteKey(db, id)) && |DeleteKey(db, id)| >= |db| - 1
  {
    if db != [] {
      var init := db[..|db| - 1];
      var last := db[|db| - 1];
      assert DistinctIds(init) by {
        forall i, j | 0 <= i < j < |init| ensures init[i].id != init[j].id {
          assert init[i] == db[i] && init[j] == db[j];
        }
      }
      DeleteKeyIds(init, id);
      var rest := DeleteKey(init, id);
      assert forall x :: x in init ==> x.id != last.id by {
        forall x | x in init ensures x.id != last.id {
          var k :| 0 <= k < |init| && init[k] == x;
          assert db[k] == x;
        }
      }
      if last.id == id {
        assert !HasTemplate(init, id);
      } else {
        var r := rest + [last];
        forall i, j | 0 <= i < j < |r| ensures r[i].id != r[j].id {
          if j == |r| - 1 {
            assert r[i] in rest;
          } else {
            assert r[i] == rest[i] && r[j] == rest[j];
          }
        }
      }
    }
  }

  /** Deleting keeps the names distinct. */
  lemma {:induction false} DeleteKeyNames(db: seq<Template>, id: string)
    requires DistinctNames(db)
    ensures DistinctNames(DeleteKey(db, id))
  {
    if db != [] {
      var init := db[..|db| - 1];
      var last := db[|db| - 1];
      assert DistinctNames(init) by {
        forall i, j | 0 <= i < j < |init| ensures init[i].name != init[j].name {
          assert init[i] == db[i] && init[j] == db[j];
        }
      }
      DeleteKeyNames(init, id);
      var rest := DeleteKey(init, id);
      assert forall x :: x in init ==> x.name != last.name by {
        forall x | x in init ensures x.name != last.name {
          var k :| 0 <= k < |init| && init[k] == x;
          assert db[k] == x;
        }
      }
      if last.id != id {
        var r := rest + [last];
        forall i, j | 0 <= i < j < |r| ensures r[i].name != r[j].name {
          if j == |r| - 1 {
            assert r[i] in rest;
          } else {
            assert r[i] == rest[i] && r[j] == rest[j];
          }
        }
      }
    }
  }

  /** The template activated on bootstrap and after an import: the one with
      the remembered id, else the last one. */
  function Chosen(ts: seq<Template>, id: Option<string>): (t: Template)
    requires |ts| > 0
    ensures t in ts
    ensures id.Some? && HasTemplate(ts, id.value) ==> t.id == id.value
    ensures id.None? || !HasTemplate(ts, id.value) ==> t == ts[|ts| - 1]
  {
    var i := if id.Some? then IndexOf(ts, id.value) else -1;
    if i >= 0 then ts[i] else ts[|ts| - 1]
  }

  /** With distinct keys, the template found by `find` is the only one with
      its key. */
  lemma IndexOfUnique(ts: seq<Template>, i: nat)
    requires DistinctIds(ts) && i < |ts|
    ensures IndexOf(ts, ts[i].id) == i
  {
  }

  /** A backup's template after `if(!t.id) t.id=uid(); t.updatedAt=Date.now()`. */
  function Normalized(t: Template, freshId: string, now: int): (u: Template)
    ensures u.id == (if t.id == "" then freshId else t.id)
    ensures u.updatedAt == now && u.name == t.name
  {
    t.(id := if t.id == "" then freshId else t.id, updatedAt := now)
  }

  /** `byName.set(t.name, t)` on a `Map` kept as its entries in insertion
      order: an existing name keeps its place and gets the new value; a new
      name goes last. */
  function SetByName(entries: seq<Template>, t: Template): (r: seq<Template>)
    ensures t in r
    ensures HasName(entries, t.name) ==>
      var k := IndexOfName(entries, t.name);
      |r| == |entries| && r[k] == t && forall j :: 0 <= j < |r| && j != k ==> r[j] == entries[j]
    ensures !HasName(entries, t.name) ==> r == entries + [t]
    ensures DistinctNames(entries) ==> DistinctNames(r)
  {
    if HasName(entries, t.name) then
      var k := IndexOfName(entries, t.name);
      assert entries[k := t][k] == t;
      entries[k := t]
    else entries + [t]
  }

  /** The first index with the name. */
  function IndexOfName(ts: seq<Template>, name: string): (i: nat)
    requires HasName(ts, name)
    ensures i < |ts| && ts[i].name == name && forall j :: 0 <= j < i ==> ts[j].name != name
  {
    if ts[0].name == name then 0
    else
      assert HasName(ts[1..], name) by {
        var i :| 0 <= i < |ts| && ts[i].name == name;
        assert ts[1..][i - 1] == ts[i];
      }
      IndexOfName(ts[1..], name) + 1
  }

  /** With distinct names, `SetByName` replaces exactly the entry holding the name. */
  lemma SetNameAt(entries: seq<Template>, k: nat, t: Template)
    requires DistinctNames(entries) && k < |entries| && entries[k].name == t.name
    ensures SetByName(entries, t) == entries[k := t]
  {
    assert HasName(entries, t.name);
    assert IndexOfName(entries, t.name) == k;
  }

  /** The merge of the import's first loop: the stored templates by name, then
      each backup template in turn. */
  function Merged(existing: seq<Template>, payload: seq<Template>, ids: seq<string>, now: int): (r: seq<Template>)
    requires |ids| == |payload|
    ensures DistinctNames(existing) ==> DistinctNames(r)
  {
    if payload == [] then existing
    else
      var n := |payload| - 1;
      SetByName(Merged(existing, payload[..n], ids[..n], now), Normalized(payload[n], ids[n], now))
  }

  /** The store after putting each template in turn, and whether every put
      succeeded; the first refused put ends the import. */
  datatype Stored = Stored(db: seq<Template>, ok: bool)

  function PutAll(db: seq<Template>, values: seq<Template>): (s: Stored)
    ensures |s.db| >= |db|
    ensures DistinctNames(db) && DistinctIds(db) ==> DistinctNames(s.db) && DistinctIds(s.db)
  {
    if values == [] then Stored(db, true)
    else
      var p := PutAll(db, values[..|values| - 1]);
      if !p.ok then p
      else
        var r := Put(p.db, values[|values| - 1]);
        if r.None? then Stored(p.db, false) else Stored(r.value, true)
  }

  /** Putting back a record the store already holds changes nothing. */
  lemma PutStored(db: seq<Template>, i: nat)
    requires DistinctNames(db) && DistinctIds(db) && i < |db|
    ensures Put(db, db[i]) == Some(db)
  {
    assert !NameTaken(db, db[i]);
    IndexOfUnique(db, i);
    assert db[i := db[i]] == db;
  }

  /** Putting back the first `k` stored records changes nothing. */
  lemma {:induction false} PutAllStored(db: seq<Template>, values: seq<Template>, k: nat)
    requires DistinctNames(db) && DistinctIds(db) && k <= |values| && k <= |db|
    requires values[..k] == db[..k]
    ensures PutAll(db, values[..k]) == Stored(db, true)
  {
    if k > 0 {
      assert values[..k][..k - 1] == values[..k - 1];
      assert values[..k - 1] == db[..k - 1];
      PutAllStored(db, values, k - 1);
      assert values[..k][k - 1] == db[k - 1];
      PutStored(db, k - 1);
    }
  }

  /** A backup template whose name is stored under another key (for example
      one without an id, which gets a fresh one) makes the import stop with a
      `ConstraintError` when its turn comes: merging by name hands the store a
      record that clashes with the `byName` index. */
  lemma ImportRefusesNameUnderOtherKey(db: seq<Template>, p: Template, freshId: string, now: int)
    requires DistinctNames(db) && DistinctIds(db)
    requires HasName(db, p.name) && (if p.id == "" then freshId else p.id) != db[IndexOfName(db, p.name)].id
    ensures !PutAll(db, Merged(db, [p], [freshId], now)).ok
  {
    var k := IndexOfName(db, p.name);
    var t := Normalized(p, freshId, now);
    assert [p][..0] == [] && [freshId][..0] == [];
    var values := Merged(db, [p], [freshId], now);
    assert Merged(db, [p][..0], [freshId][..0], now) == db;
    SetNameAt(db, k, t);
    assert values == db[k := t];
    assert values[..k] == db[..k];
    PutAllStored(db, values, k);
    assert values[..k + 1][..k] == values[..k];
    assert NameTaken(db, t);
    PutAllStops(db, values, k + 1);
  }

  /** Once a put is refused, the later values are not stored. */
  lemma {:induction false} PutAllStops(db: seq<Template>, values: seq<Template>, n: nat)
    requires n <= |values|
    requires !PutAll(db, values[..n]).ok
    ensures PutAll(db, values) == PutAll(db, values[..n])
    decreases |values| - n
  {
    if n < |values| {
      assert values[..n + 1][..n] == values[..n];
      PutAllStops(db, values, n + 1);
    } else {
      assert values[..n] == values;
    }
  }

  /** No value from index `from` on has the name. */
  ghost predicate NameFreeFrom(payload: seq<Template>, name: string, from: nat)
  {
    forall j :: from <= j < |payload| ==> payload[j].name != name
  }

  /** No value from index `from` on has the key. */
  ghost predicate IdFreeFrom(values: seq<Template>, id: string, from: nat)
  {
    forall j :: from <= j < |values| ==> values[j].id != id
  }

  /** With distinct names, `set` leaves exactly the new value and the entries
      under other names. */
  lemma SetByNameMember(entries: seq<Template>, t: Template, x: Template)
    requires DistinctNames(entries)
    ensures x in SetByName(entries, t) <==> x == t || (x in entries && x.name != t.name)
  {
    var r := SetByName(entries, t);
    if HasName(entries, t.name) {
      var k := IndexOfName(entries, t.name);
      if x in entries && x.name != t.name {
        var j :| 0 <= j < |entries| && entries[j] == x;
        assert r[j] == x;
      }
      if x in r {
        var j :| 0 <= j < |r| && r[j] == x;
        if j != k {
          assert x == entries[j];
        }
      }
    }
  }

  /** A stored template the merge keeps: no backup template uses its name. */
  ghost predicate KeptStored(existing: seq<Template>, payload: seq<Template>, x: Template)
  {
    x in existing && NameFreeFrom(payload, x.name, 0)
  }

  /** A normalised backup template that no later backup template overrides
      by name. */
  ghost predicate LastOfName(payload: seq<Template>, ids: seq<string>, now: int, x: Template)
    requires |ids| == |payload|
  {
    exists i :: 0 <= i < |payload| && x == Normalized(payload[i], ids[i], now) &&
                NameFreeFrom(payload, payload[i].name, i + 1)
  }

  /** The newest backup template is the last of its name. */
  lemma LastOfNameNewest(payload: seq<Template>, ids: seq<string>, now: int)
    requires |ids| == |payload| && payload != []
    ensures LastOfName(payload, ids, now, Normalized(payload[|payload| - 1], ids[|payload| - 1], now))
  {
    var n := |payload| - 1;
    assert NameFreeFrom(payload, payload[n].name, n + 1);
  }

  /** An earlier last-of-its-name stays so when the new backup template has
      another name. */
  lemma LastOfNameKept(payload: seq<Template>, ids: seq<string>, now: int, x: Template)
    requires |ids| == |payload| && payload != []
    requires LastOfName(payload[..|payload| - 1], ids[..|payload| - 1], now, x)
    requires x.name != payload[|payload| - 1].name
    ensures LastOfName(payload, ids, now, x)
  {
    var n := |payload| - 1;
    var p', ids' := payload[..n], ids[..n];
    var i :| 0 <= i < n && x == Normalized(p'[i], ids'[i], now) && NameFreeFrom(p', p'[i].name, i + 1);
    assert p'[i] == payload[i] && ids'[i] == ids[i];
    assert NameFreeFrom(payload, payload[i].name, i + 1);
  }

  /** A last-of-its-name other than the newest was one before it came, under
      another name. */
  lemma LastOfNameEarlier(payload: seq<Template>, ids: seq<string>, now: int, x: Template)
    requires |ids| == |payload| && payload != []
    requires LastOfName(payload, ids, now, x)
    requires x != Normalized(payload[|payload| - 1], ids[|payload| - 1], now)
    ensures LastOfName(payload[..|payload| - 1], ids[..|payload| - 1], now, x)
    ensures x.name != payload[|payload| - 1].name
  {
    var n := |payload| - 1;
    var p', ids' := payload[..n], ids[..n];
    var i :| 0 <= i < |payload| && x == Normalized(payload[i], ids[i], now) &&
             NameFreeFrom(payload, payload[i].name, i + 1);
    assert i < n;
    assert p'[i] == payload[i] && ids'[i] == ids[i];
    assert NameFreeFrom(p', p'[i].name, i + 1);
  }

  /** What the merge by name holds: each stored template whose name no backup
      template uses, and each backup template, normalised, that no later
      backup template overrides by name; nothing else. */
  lemma {:induction false} MergedMember(existing: seq<Template>, payload: seq<Template>, ids: seq<string>, now: int, x: Template)
    requires DistinctNames(existing) && |ids| == |payload|
    ensures x in Merged(existing, payload, ids, now) <==>
      KeptStored(existing, payload, x) || LastOfName(payload, ids, now, x)
  {
    if payload != [] {
      var n := |payload| - 1;
      var p', ids' := payload[..n], ids[..n];
      var t := Normalized(payload[n], ids[n], now);
      MergedMember(existing, p', ids', now, x);
      SetByNameMember(Merged(existing, p', ids', now), t, x);
      LastOfNameNewest(payload, ids, now);
      if LastOfName(p', ids', now, x) && x.name != t.name {
        LastOfNameKept(payload, ids, now, x);
      }
      if LastOfName(payload, ids, now, x) && x != t {
        LastOfNameEarlier(payload, ids, now, x);
      }
      assert KeptStored(existing, payload, x) <==> KeptStored(existing, p', x) && x.name != t.name by {
        if KeptStored(existing, p', x) && x.name != t.name {
          assert forall j :: 0 <= j < n ==> payload[j] == p'[j];
        }
      }
    } else {
      assert !LastOfName(payload, ids, now, x);
    }
  }

  /** A successful run of puts keeps every value that no later value
      replaces by key. */
  lemma {:induction false} PutAllKeepsValue(db: seq<Template>, values: seq<Template>, i: nat)
    requires PutAll(db, values).ok && i < |values| && IdFreeFrom(values, values[i].id, i + 1)
    ensures values[i] in PutAll(db, values).db
  {
    var n := |values| - 1;
    var v' := values[..n];
    var p := PutAll(db, v');
    assert p.ok;
    var r := Put(p.db, values[n]);
    assert r.Some? && PutAll(db, values).db == r.value;
    if i < n {
      assert v'[i] == values[i];
      assert IdFreeFrom(v', v'[i].id, i + 1);
      PutAllKeepsValue(db, v', i);
      assert values[i] in p.db && values[i].id != values[n].id;
    }
  }

  /** A successful run of puts keeps every earlier record whose key no value
      carries. */
  lemma {:induction false} PutAllKeepsStored(db: seq<Template>, values: seq<Template>, x: Template)
    requires PutAll(db, values).ok && x in db && IdFreeFrom(values, x.id, 0)
    ensures x in PutAll(db, values).db
  {
    if values != [] {
      var n := |values| - 1;
      var v' := values[..n];
      assert IdFreeFrom(v', x.id, 0);
      PutAllKeepsStored(db, v', x);
      assert x.id != values[n].id;
    }
  }

  /** The puts add nothing but the values: every record of the store after
      them was stored before or put. */
  lemma {:induction false} PutAllOnlyValues(db: seq<Template>, values: seq<Template>, x: Template)
    requires x in PutAll(db, values).db
    ensures x in db || x in values
  {
    if values != [] {
      var n := |values| - 1;
      var v' := values[..n];
      var p := PutAll(db, v');
      if x != values[n] {
        assert x in p.db;
        PutAllOnlyValues(db, v', x);
        if x in v' {
          var j :| 0 <= j < |v'| && v'[j] == x;
          assert values[j] == x;
        }
      }
    }
  }

  /** A successful import whose merge gives distinct keys stores every
      backup template, normalised, that no later backup template overrides by
      name, and keeps every stored template whose name the backup does not
      use: the import replaces or merges templates by name. */
  lemma ImportStoresByName(db: seq<Template>, payload: seq<Template>, ids: seq<string>, now: int, x: Template)
    requires DistinctNames(db) && |ids| == |payload|
    requires PutAll(db, Merged(db, payload, ids, now)).ok && DistinctIds(Merged(db, payload, ids, now))
    requires KeptStored(db, payload, x) || LastOfName(payload, ids, now, x)
    ensures x in PutAll(db, Merged(db, payload, ids, now)).db
  {
    var values := Merged(db, payload, ids, now);
    MergedMember(db, payload, ids, now, x);
    var k :| 0 <= k < |values| && values[k] == x;
    assert IdFreeFrom(values, values[k].id, k + 1);
    PutAllKeepsValue(db, values, k);
  }

  /** The import's first loop: the stored templates keyed by name, then each
      backup template, normalised, set under its name. */
  method MergeByName(existing: seq<Template>, payload: seq<Template>, ids: seq<string>, now: int)
    returns (byName: seq<Template>)
    requires |ids| == |payload|
    ensures byName == Merged(existing, payload, ids, now)
    ensures DistinctNames(existing) ==> DistinctNames(byName)
  {
    byName := existing;
    var i := 0;
    while i < |payload|
      invariant 0 <= i <= |payload|
      invariant byName == Merged(existing, payload[..i], ids[..i], now)
    {
      assert payload[..i + 1][..i] == payload[..i] && ids[..i + 1][..i] == ids[..i];
      byName := SetByName(byName, Normalized(payload[i], ids[i], now));
      i := i + 1;
    }
    assert payload[..i] == payload && ids[..i] == ids;
  }

  /** The import's second loop: each merged template is put in turn; the
      first refused put ends it, with the earlier puts kept. */
  method StoreAll(db0: seq<Template>, values: seq<Template>) returns (db: seq<Template>, ok: bool)
    ensures Stored(db, ok) == PutAll(db0, values)
    ensures |db| >= |db0|
    ensures DistinctNames(db0) && DistinctIds(db0) ==> DistinctNames(db) && DistinctIds(db)
  {
    db := db0;
    var j := 0;
    while j < |values|
      invariant 0 <= j <= |values|
      invariant PutAll(db0, values[..j]) == Stored(db, true)
    {
      assert values[..j + 1][..j] == values[..j];
      var r := Put(db, values[j]);
      if r.None? {
        PutAllStops(db0, values, j + 1);
        return db, false;
      }
      db := r.value;
      j := j + 1;
    }
    assert values[..j] == values;
    ok := true;
  }

  /** The registry: the store, the page's copy of its templates and the
      active template. `savedActive` is the `xt_active_template` key of
      localStorage. */
  class Registry {
    var db: seq<Template>
    var templates: seq<Template>
    var activeTemplateId: string
    var active: Template
    var savedActive: Option<string>

    /** The store's key and index keep keys and names distinct; the page's
        list was read from the store (never longer than it is now), it never
        drops below one template, and the active id is the active template's. */
    ghost predicate Valid()
      reads this
    {
      DistinctNames(db) && DistinctIds(db) && DistinctNames(templates) &&
      1 <= |templates| <= |db| && activeTemplateId == active.id
    }

    /** `init()`: read the store, create a first template (named after the
        current month) when it is empty, then activate the remembered one or
        the last. */
    constructor Init(stored: seq<Template>, saved: Option<string>, name: string, id: string, now: int)
      requires DistinctNames(stored) && DistinctIds(stored)
      ensures Valid()
      ensures stored != [] ==> db == stored
      ensures stored == [] ==> db == [EmptyTemplate(id, name, now)]
      ensures templates == db && active == Chosen(db, saved) && savedActive == saved
    {
      var ts := stored;
      if |ts| == 0 {
        var t := EmptyTemplate(id, name, now);
        ts := [t];
      }
      db := ts;
      templates := ts;
      var a := Chosen(ts, saved);
      active := a;
      activeTemplateId := a.id;
      savedActive := saved;
    }

    /** `setActiveTemplate(id)`: an unknown id changes nothing. */
    method SetActiveTemplate(id: string)
      requires Valid()
      modifies this
      ensures Valid()
      ensures db == old(db) && templates == old(templates)
      ensures !HasTemplate(templates, id) ==> unchanged(this)
      ensures HasTemplate(templates, id) ==>
        active == templates[IndexOf(templates, id)] && activeTemplateId == id && savedActive == Some(id)
    {
      var i := IndexOf(templates, id);
      if i < 0 {
        return;
      }
      activeTemplateId := id;
      active := templates[i];
      savedActive := Some(id);
    }

    /** `persistActive()`: stamp the active template, put it, and on success
        read the list back. */
    method PersistActive(now: int)
      requires Valid()
      modifies this
      ensures Valid()
      ensures active == old(active).(updatedAt := now)
      ensures activeTemplateId == old(activeTemplateId) && savedActive == old(savedActive)
      ensures Put(old(db), active).Some? ==> db == Put(old(db), active).value && templates == db
      ensures Put(old(db), active).None? ==> db == old(db) && templates == old(templates)
    {
      active := active.(updatedAt := now);
      var r := Put(db, active);
      if r.Some? {
        db := r.value;
        templates := db;
      }
    }

    /** The create button: refused on a name the list already holds; the
        new empty template is put, the list read back and the template
        activated. */
    method Create(name: string, id: string, now: int) returns (ok: bool)
      requires Valid()
      modifies this
      ensures Valid()
      ensures HasName(old(templates), name) ==> !ok && unchanged(this)
      ensures ok <==> !HasName(old(templates), name) && Put(old(db), EmptyTemplate(id, name, now)).Some?
      ensures ok ==> db == Put(old(db), EmptyTemplate(id, name, now)).value && templates == db
      ensures ok ==> active == EmptyTemplate(id, name, now) && activeTemplateId == id && savedActive == Some(id)
      ensures !ok ==> unchanged(this)
    {
      if HasName(templates, name) {
        return false;
      }
      var t := EmptyTemplate(id, name, now);
      var r := Put(db, t);
      if r.None? {
        return false;
      }
      db := r.value;
      templates := db;
      var k :| 0 <= k < |db| && db[k] == t;
      IndexOfUnique(db, k);
      SetActiveTemplate(t.id);
      ok := true;
    }

    /** The clone button: refused when the base is not in the list or the
        name is taken; the clone is put, the list read back and the clone
        activated. One fresh id is supplied per copied row of the base. */
    method Clone(fromId: string, name: string, id: string, now: int,
                 invIds: seq<string>, alumnoIds: seq<string>, cxcIds: seq<string>, cxpIds: seq<string>)
      returns (ok: bool)
      requires Valid()
      requires HasTemplate(templates, fromId) ==>
        var base := templates[IndexOf(templates, fromId)];
        |invIds| == |Items(base.inventario)| && |alumnoIds| == |Items(base.alumnos)| &&
        |cxcIds| == |Items(base.cxc)| && |cxpIds| == |Items(base.cxp)|
      modifies this
      ensures Valid()
      ensures !HasTemplate(old(templates), fromId) || HasName(old(templates), name) ==> !ok
      ensures ok <==> (HasTemplate(old(templates), fromId) && !HasName(old(templates), name) &&
        Put(old(db), CloneTemplate(old(templates)[IndexOf(old(templates), fromId)], name, id, now,
                                   invIds, alumnoIds, cxcIds, cxpIds)).Some?)
      ensures !ok ==> unchanged(this)
      ensures ok ==>
        var t := CloneTemplate(old(templates)[IndexOf(old(templates), fromId)], name, id, now,
                               invIds, alumnoIds, cxcIds, cxpIds);
        Put(old(db), t).Some? && db == Put(old(db), t).value && templates == db &&
        active == t && activeTemplateId == id && savedActive == Some(id)
    {
      var i := IndexOf(templates, fromId);
      if i < 0 {
        return false;
      }
      if HasName(templates, name) {
        return false;
      }
      var t := CloneTemplate(templates[i], name, id, now, invIds, alumnoIds, cxcIds, cxpIds);
      var r := Put(db, t);
      if r.None? {
        return false;
      }
      db := r.value;
      templates := db;
      var k :| 0 <= k < |db| && db[k] == t;
      IndexOfUnique(db, k);
      SetActiveTemplate(t.id);
      ok := true;
    }

    /** The delete button: refused while at most one template is listed;
        otherwise the active template's record goes, the list is read back and
        its last template activated. */
    method Delete() returns (ok: bool)
      requires Valid()
      modifies this
      ensures Valid()
      ensures ok <==> |old(templates)| > 1
      ensures !ok ==> unchanged(this)
      ensures ok ==> db == DeleteKey(old(db), old(active).id) && templates == db && !HasTemplate(db, old(active).id)
      ensures ok ==> active == templates[|templates| - 1] && savedActive == Some(active.id)
    {
      if |templates| <= 1 {
        return false;
      }
      var gone := active.id;
      DeleteKeyIds(db, gone);
      DeleteKeyNames(db, gone);
      db := DeleteKey(db, gone);
      templates := db;
      var next := templates[|templates| - 1];
      IndexOfUnique(templates, |templates| - 1);
      SetActiveTemplate(next.id);
      ok := true;
    }

    /** The import of a backup, after the confirmation: merge the stored
        templates and the backup's by name (a backup template without an id
        gets the fresh one supplied for it), put every merged template in
        turn, then read the list back and keep the active template when it is
        still listed. A refused put ends the import with the earlier puts
        kept and the list not read back. */
    method Import(payload: seq<Template>, ids: seq<string>, now: int) returns (ok: bool)
      requires Valid() && |ids| == |payload|
      modifies this
      ensures Valid()
      ensures var s := PutAll(old(db), Merged(old(db), payload, ids, now));
        db == s.db && ok == s.ok
      ensures ok ==>
        templates == db && active == Chosen(db, Some(old(activeTemplateId))) && savedActive == Some(active.id)
      ensures !ok ==> templates == old(templates) && active == old(active) && savedActive == old(savedActive)
    {
      var byName := MergeByName(db, payload, ids, now);
      var stored;
      stored, ok := StoreAll(db, byName);
      db := stored;
      if !ok {
        return;
      }
      templates := db;
      var still := Chosen(templates, Some(activeTemplateId));
      var k :| 0 <= k < |templates| && templates[k] == still;
      IndexOfUnique(templates, k);
      SetActiveTemplate(still.id);
    }

    /** `upsert(listName, data, editId)` on the active template. */
    method Upsert(l: List, data: Row, editId: string)
      requires Valid()
      modifies this
      ensures Valid()
      ensures active == WithCollection(old(active), l, Rows(Upserted(Items(Collection(old(active), l)), data, editId)))
      ensures db == old(db) && templates == old(templates) && savedActive == old(savedActive)
    {
      var arr := Items(Collection(active, l));
      arr := Upserted(arr, data, editId);
      active := WithCollection(active, l, Rows(arr));
    }

    /** `delRow(listName, id)`, after the confirmation: the rows with the id
        are filtered out of the active template, which is then persisted. */
    method DelRow(l: List, id: string, now: int)
      requires Valid()
      modifies this
      ensures Valid()
      ensures var t := WithCollection(old(active), l, Rows(WithoutId(Items(Collection(old(active), l)), id)));
        active == t.(updatedAt := now) &&
        (Put(old(db), active).Some? ==> db == Put(old(db), active).value && templates == db) &&
        (Put(old(db), active).None? ==> db == old(db) && templates == old(templates))
      ensures activeTemplateId == old(activeTemplateId) && savedActive == old(savedActive)
    {
      active := WithCollection(active, l, Rows(WithoutId(Items(Collection(active, l)), id)));
      PersistActive(now);
    }

    /** `markCxcPaid(id)` (app.js:611-629), after the confirmation: an unknown
        receivable changes nothing; otherwise the settled template becomes
        the active one and is persisted, unless pushing the income threw. */
    method MarkCxcPaid(id: string, ingId: string, today: string, now: int)
      requires Valid()
      modifies this
      ensures Valid()
      ensures activeTemplateId == old(activeTemplateId) && savedActive == old(savedActive)
      ensures Settle(old(active), id, ingId, today).NotFound? ==> unchanged(this)
      ensures Settle(old(active), id, ingId, today).NoIncomes? ==>
        active == Settle(old(active), id, ingId, today).t && db == old(db) && templates == old(templates)
      ensures Settle(old(active), id, ingId, today).Settled? ==>
        active == Settle(old(active), id, ingId, today).t.(updatedAt := now) &&
        (Put(old(db), active).Some? ==> db == Put(old(db), active).value && templates == db) &&
        (Put(old(db), active).None? ==> db == old(db) && templates == old(templates))
    {
      var s := Settle(active, id, ingId, today);
      match s
      case NotFound =>
      case NoIncomes(t) =>
        active := t;
      case Settled(t) =>
        active := t;
        PersistActive(now);
    }
  }
}
