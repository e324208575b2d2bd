/** The second store: the localStorage map `xa_store_v1` from an id to a
    record of arrays (app.js:19-60), read and normalised by `getActive`,
    written back by `saveActiveData` (app.js:208-213), and the operations on
    it: `ensureCxc` and `addCuotaPendiente` (app.js:58-86), the
    `markCxcPaid` declared first (app.js:376-399, overridden by the later
    declaration but kept here as written), `addOrUpdateAlumno`
    (app.js:1028-1057). The id under which the record is kept comes from the
    key `xa_active_v1`, which nothing in the application writes. */
module Cache {
  import opened Json
  import opened Rows

  /** A property of a cached record: a scalar or an array of rows. */
  datatype Prop = Val(v: Value) | Arr(rows: seq<Row>)

  /** A cached record, such as `{alumnos: [], cxc: [], ...}`. */
  type Record = map<string, Prop>

  /** `r[k]`, `undefined` when missing. */
  function PropOf(r: Record, k: string): Prop
  {
    if k in r then r[k] else Val(Undefined)
  }

  /** `x ??= ...` replaces exactly these. */
  predicate NullishProp(p: Prop)
  {
    p.Val? && Nullish(p.v)
  }

  /** The record `getActive` creates for an id the store does not know. */
  function FreshRecord(): (r: Record)
    ensures r.Keys == {"alumnos", "pagos", "gastos", "asistencia", "cxc"}
    ensures forall k :: k in r ==> r[k] == Arr([])
  {
    map["alumnos" := Arr([]), "pagos" := Arr([]), "gastos" := Arr([]),
        "asistencia" := Arr([]), "cxc" := Arr([])]
  }

  /** The store's entry for an id, if any. */
  function Lookup(store: map<string, Record>, id: string): Option<Record>
  {
    if id in store then Some(store[id]) else None
  }

  /** What `getActive` makes of the stored entry: a missing entry becomes the
      fresh record, then a nullish `cxc` becomes an empty array. */
  function Normalize(entry: Option<Record>): (r: Record)
    ensures "cxc" in r && !NullishProp(r["cxc"])
    ensures entry.None? ==> r == FreshRecord()
    ensures entry.Some? && !NullishProp(PropOf(entry.value, "cxc")) ==> r == entry.value
    ensures entry.Some? && NullishProp(PropOf(entry.value, "cxc")) ==> r == entry.value["cxc" := Arr([])]
  {
    var r := if entry.None? then FreshRecord() else entry.value;
    if NullishProp(PropOf(r, "cxc")) then r["cxc" := Arr([])] else r
  }

  /** An existing entry keeps all its properties, and only a nullish `cxc`
      changes: it becomes an empty array. */
  lemma NormalizeKeeps(rec: Record)
    ensures var r := Normalize(Some(rec));
      r.Keys == rec.Keys + {"cxc"} &&
      (forall k :: k in rec && k != "cxc" ==> r[k] == rec[k]) &&
      (r["cxc"] == if NullishProp(PropOf(rec, "cxc")) then Arr([]) else rec["cxc"])
  {
  }

  /** Normalising twice is normalising once: a second `getActive` finds the
      record as the first one left it. */
  lemma NormalizeIdempotent(entry: Option<Record>)
    ensures Normalize(Some(Normalize(entry))) == Normalize(entry)
  {
  }

  /** `getActive` does not make every `cxc` an array: a stored non-array,
      non-nullish value stays, and only `ensureCxc` replaces it. */
  lemma NormalizeKeepsNonArray(rec: Record, v: Value)
    requires !Nullish(v)
    ensures Normalize(Some(rec["cxc" := Val(v)]))["cxc"] == Val(v)
  {
  }

  /** `!alumno.nombre`-style checks and `c.estado === "pendiente"` read row
      fields; this is the guard of `addCuotaPendiente`: a receivable of the
      student for the month whose estado is `"pendiente"` (lower case). */
  predicate IsPending(c: Row, alumno: Row, periodo: string)
  {
    StrictEquals(Get(c, "alumnoId"), Get(alumno, "id")) &&
    Get(c, "periodo") == Str(periodo) &&
    Get(c, "estado") == Str("pendiente")
  }

  predicate HasPending(rows: seq<Row>, alumno: Row, periodo: string)
  {
    exists i :: 0 <= i < |rows| && IsPending(rows[i], alumno, periodo)
  }

  /** The receivable `addCuotaPendiente` pushes. */
  function CuotaRow(alumno: Row, periodo: string, cxcId: string, today: string): (c: Row)
    ensures Get(c, "id") == Str("cxc_" + cxcId) && Get(c, "alumnoId") == Get(alumno, "id")
    ensures Get(c, "nombre") == Get(alumno, "nombre") && Get(c, "programa") == Get(alumno, "programa")
    ensures Get(c, "monto") == ToNumber(Or(Get(alumno, "cuota"), Num(0)))
    ensures !Truthy(Get(alumno, "cuota")) ==> Get(c, "monto") == Num(0)
    ensures Get(c, "periodo") == Str(periodo) && Get(c, "concepto") == Str("Cuota mensual")
    ensures Get(c, "estado") == Str("Pendiente") && Get(c, "createdAt") == Str(today)
    ensures !IsPending(c, alumno, periodo)
  {
    map["id" := Str("cxc_" + cxcId),
        "alumnoId" := Get(alumno, "id"),
        "nombre" := Get(alumno, "nombre"),
        "programa" := Get(alumno, "programa"),
        "monto" := ToNumber(Or(Get(alumno, "cuota"), Num(0))),
        "periodo" := Str(periodo),
        "concepto" := Str("Cuota mensual"),
        "estado" := Str("Pendiente"),
        "createdAt" := Str(today)]
  }

  /** The receivables after `addCuotaPendiente`: unchanged when the guard
      finds a pending one, otherwise one receivable more at the end. */
  function WithCuota(rows: seq<Row>, alumno: Row, periodo: string, cxcId: string, today: string): (r: seq<Row>)
    ensures HasPending(rows, alumno, periodo) ==> r == rows
    ensures !HasPending(rows, alumno, periodo) ==>
      |r| == |rows| + 1 && r[..|rows|] == rows && r[|rows|] == CuotaRow(alumno, periodo, cxcId, today)
  {
    if HasPending(rows, alumno, periodo) then rows
    else rows + [CuotaRow(alumno, periodo, cxcId, today)]
  }

  /** The guard is exactly what keeps the receivables as they are. */
  lemma WithCuotaUnchangedIff(rows: seq<Row>, alumno: Row, periodo: string, cxcId: string, today: string)
    ensures WithCuota(rows, alumno, periodo, cxcId, today) == rows <==> HasPending(rows, alumno, periodo)
  {
    if !HasPending(rows, alumno, periodo) {
      assert |WithCuota(rows, alumno, periodo, cxcId, today)| != |rows|;
    }
  }

  /** The pushed receivable says `"Pendiente"` while the guard looks for
      `"pendiente"`: the push never satisfies the guard, so calling again for
      the same student and month pushes once more. */
  lemma {:induction false} SecondCuotaAppendsAgain(rows: seq<Row>, alumno: Row, periodo: string,
                                                   id1: string, id2: string, today: string)
    requires !HasPending(rows, alumno, periodo)
    ensures var once := WithCuota(rows, alumno, periodo, id1, today);
      !HasPending(once, alumno, periodo) &&
      |WithCuota(once, alumno, periodo, id2, today)| == |rows| + 2
  {
    var once := WithCuota(rows, alumno, periodo, id1, today);
    forall i | 0 <= i < |once| ensures !IsPending(once[i], alumno, periodo) {
      if i < |rows| {
        assert once[i] == rows[i];
      }
    }
  }

  /** The record object `getActive` hands out: a copy parsed from the store,
      which the callers edit in place before saving it back. */
  class ActiveData {
    var props: Record

    constructor (r: Record)
      ensures props == r
    {
      props := r;
    }

    /** `ensureCxc(active)`: a `cxc` that is not an array becomes `[]`. */
    method EnsureCxc()
      modifies this
      ensures "cxc" in props && props["cxc"].Arr?
      ensures PropOf(old(props), "cxc").Arr? ==> props == old(props)
      ensures !PropOf(old(props), "cxc").Arr? ==> props == old(props)["cxc" := Arr([])]
    {
      if !PropOf(props, "cxc").Arr? {
        props := props["cxc" := Arr([])];
      }
    }

    /** `addCuotaPendiente(active, alumno)` for month `periodo`, with the id
        and the date passed in. */
    method AddCuotaPendiente(alumno: Row, periodo: string, cxcId: string, today: string)
      modifies this
      ensures var before := if PropOf(old(props), "cxc").Arr? then old(props)["cxc"].rows else [];
        props == old(props)["cxc" := Arr(WithCuota(before, alumno, periodo, cxcId, today))]
    {
      EnsureCxc();
      var rows := props["cxc"].rows;
      if HasPending(rows, alumno, periodo) {
        return;
      }
      props := props["cxc" := Arr(rows + [CuotaRow(alumno, periodo, cxcId, today)])];
    }

    /** The body of `addOrUpdateAlumno` after the name check: the student
        replaces the one with its id or is pushed, then the month's receivable
        is added. `findIndex` throws (false) when `alumnos` is not an array. */
    method PutAlumno(alumno: Row, id: string, periodo: string, cxcId: string, today: string) returns (ok: bool)
      modifies this
      ensures ok <==> PropOf(old(props), "alumnos").Arr?
      ensures !ok ==> props == old(props)
      ensures ok ==> props == AlumnoSaved(old(props), alumno, id, periodo, cxcId, today)
    {
      if !PropOf(props, "alumnos").Arr? {
        return false;
      }
      var rows := props["alumnos"].rows;
      props := props["alumnos" := Arr(ReplaceOrPush(rows, alumno, id))];
      AddCuotaPendiente(alumno, periodo, cxcId, today);
      ok := true;
    }

    /** The body of `addOrUpdateAlumno` on the record: the student is built
        from the form with its id, refused without a name, then put. */
    method AddAlumno(fields: Row, id: string, periodo: string, cxcId: string, today: string)
      returns (outcome: Outcome)
      modifies this
      ensures outcome == Refused <==> !Truthy(Get(fields, "nombre"))
      ensures outcome == Threw <==> Truthy(Get(fields, "nombre")) && !PropOf(old(props), "alumnos").Arr?
      ensures outcome != Saved ==> props == old(props)
      ensures outcome == Saved ==> props == AlumnoSaved(old(props), fields["id" := Str(id)], id, periodo, cxcId, today)
    {
      var alumno := fields["id" := Str(id)];
      assert Get(alumno, "nombre") == Get(fields, "nombre");
      if !Truthy(Get(alumno, "nombre")) {
        return Refused;
      }
      var ok := PutAlumno(alumno, id, periodo, cxcId, today);
      outcome := if ok then Saved else Threw;
    }

    /** The body of the first `markCxcPaid(id)`: find the receivable, mark it
        paid on the day, default `ingresos` to `[]` and push the income. */
    method SettleCxc(id: string, ingId: string, today: string) returns (outcome: Outcome)
      modifies this
      ensures outcome == OutcomeOf(SettleCached(old(props), id, ingId, today))
      ensures SettleCached(old(props), id, ingId, today).Paid? ==> props == SettleCached(old(props), id, ingId, today).r
      ensures SettleCached(old(props), id, ingId, today) in {NoArray, Unknown} ==> props == old(props)
      ensures SettleCached(old(props), id, ingId, today) == NoIncomeArray ==>
        var rows := old(props)["cxc"].rows;
        var i := FindIndex(rows, id);
        props == old(props)["cxc" := Arr(rows[i := PaidRow(rows[i], today)])]
    {
      var p := PropOf(props, "cxc");
      if !p.Arr? {
        return Threw;
      }
      var i := FindIndex(p.rows, id);
      if i < 0 {
        return Refused;
      }
      var paid := PaidRow(p.rows[i], today);
      var marked := props["cxc" := Arr(p.rows[i := paid])];
      props := marked;
      var ing := PropOf(props, "ingresos");
      if NullishProp(ing) {
        props := props["ingresos" := Arr([])];
      } else if !ing.Arr? {
        return Threw;
      }
      var incomes := props["ingresos"].rows;
      props := props["ingresos" := Arr(incomes + [CxcIncome(paid, ingId, today)])];
      assert props == marked["ingresos" := Arr(incomes + [CxcIncome(paid, ingId, today)])];
      outcome := Saved;
    }
  }

  /** How an operation on the cached record ended. */
  datatype Outcome =
    | Refused   // the operation declined (missing name, unknown id)
    | Threw     // a TypeError stopped it before the save
    | Saved     // the edited record was written back

  /** The student record after a successful `addOrUpdateAlumno`: the student
      replaces the one with its id or is appended, then the monthly
      receivable is added. */
  function AlumnoSaved(rec: Record, alumno: Row, id: string, periodo: string, cxcId: string, today: string): (r: Record)
    requires "alumnos" in rec && rec["alumnos"].Arr?
    ensures "alumnos" in r && "cxc" in r
    ensures r["alumnos"] == Arr(ReplaceOrPush(rec["alumnos"].rows, alumno, id))
    ensures r["cxc"] == Arr(WithCuota(if PropOf(rec, "cxc").Arr? then rec["cxc"].rows else [], alumno, periodo, cxcId, today))
  {
    var s := rec["alumnos" := Arr(ReplaceOrPush(rec["alumnos"].rows, alumno, id))];
    var before := if PropOf(s, "cxc").Arr? then s["cxc"].rows else [];
    s["cxc" := Arr(WithCuota(before, alumno, periodo, cxcId, today))]
  }

  /** Saving a student touches only `alumnos` and `cxc`. */
  lemma AlumnoSavedKeeps(rec: Record, alumno: Row, id: string, periodo: string, cxcId: string, today: string)
    requires "alumnos" in rec && rec["alumnos"].Arr?
    ensures var r := AlumnoSaved(rec, alumno, id, periodo, cxcId, today);
      r.Keys == rec.Keys + {"cxc"} &&
      forall k :: k in rec && k != "alumnos" && k != "cxc" ==> r[k] == rec[k]
  {
  }

  /** Saving a student whose id is new adds it at the end and leaves every
      other student in place; one already listed is replaced where it is. */
  lemma AlumnoSavedStudents(rec: Record, alumno: Row, id: string, periodo: string, cxcId: string, today: string)
    requires "alumnos" in rec && rec["alumnos"].Arr?
    ensures var rows := rec["alumnos"].rows;
      var after := AlumnoSaved(rec, alumno, id, periodo, cxcId, today)["alumnos"].rows;
      (!AnyHasId(rows, id) ==> |after| == |rows| + 1 && after[..|rows|] == rows && after[|rows|] == alumno) &&
      (AnyHasId(rows, id) ==> |after| == |rows| && after[FindIndex(rows, id)] == alumno)
  {
  }

  /** The income row the first `markCxcPaid` pushes for receivable `c`. */
  function CxcIncome(c: Row, ingId: string, today: string): (inc: Row)
    ensures Get(inc, "id") == Str("ing_" + ingId) && Get(inc, "fecha") == Str(today)
    ensures Get(inc, "concepto") == (if Truthy(Get(c, "concepto")) then Get(c, "concepto") else Str("Cuota"))
    ensures Get(inc, "nombre") == Get(c, "nombre") && Get(inc, "monto") == Get(c, "monto")
    ensures Get(inc, "origen") == Str("CXC") && Get(inc, "refId") == Get(c, "id")
  {
    map["id" := Str("ing_" + ingId),
        "fecha" := Str(today),
        "concepto" := Or(Get(c, "concepto"), Str("Cuota")),
        "nombre" := Get(c, "nombre"),
        "monto" := Get(c, "monto"),
        "origen" := Str("CXC"),
        "refId" := Get(c, "id")]
  }

  /** The receivable after `estado = "Pagado"` and `pagadoEn = todayISO()`:
      both fields set, every other field kept. */
  function PaidRow(c: Row, today: string): (p: Row)
    ensures Get(p, "estado") == Str("Pagado") && Get(p, "pagadoEn") == Str(today)
    ensures p.Keys == c.Keys + {"estado", "pagadoEn"}
    ensures forall k :: k in c && k != "estado" && k != "pagadoEn" ==> p[k] == c[k]
  {
    c["estado" := Str("Pagado")]["pagadoEn" := Str(today)]
  }

  /** What the first `markCxcPaid` does to the normalised record. */
  datatype CacheSettlement =
    | NoArray                  // `cxc` is not an array: `find` throws
    | Unknown                  // no receivable has the id
    | NoIncomeArray            // `ingresos` is a non-array value: `push` throws
    | Paid(r: Record)          // marked paid, income pushed, saved

  /** How the first `markCxcPaid` ends for each settlement. */
  function OutcomeOf(s: CacheSettlement): (o: Outcome)
    ensures o == Saved <==> s.Paid?
  {
    match s
    case NoArray => Threw
    case Unknown => Refused
    case NoIncomeArray => Threw
    case Paid(_) => Saved
  }

  function SettleCached(rec: Record, id: string, ingId: string, today: string): (s: CacheSettlement)
    ensures s == NoArray <==> !PropOf(rec, "cxc").Arr?
    ensures s == Unknown <==> PropOf(rec, "cxc").Arr? && !AnyHasId(rec["cxc"].rows, id)
    ensures s == NoIncomeArray <==> PropOf(rec, "cxc").Arr? && AnyHasId(rec["cxc"].rows, id) &&
                                    !NullishProp(PropOf(rec, "ingresos")) && !PropOf(rec, "ingresos").Arr?
  {
    var p := PropOf(rec, "cxc");
    if !p.Arr? then NoArray
    else
      var i := FindIndex(p.rows, id);
      if i < 0 then Unknown
      else
        var paid := PaidRow(p.rows[i], today);
        var ing := PropOf(rec, "ingresos");
        var incomes := if NullishProp(ing) then [] else if ing.Arr? then ing.rows else [];
        if !NullishProp(ing) && !ing.Arr? then NoIncomeArray
        else Paid(rec["cxc" := Arr(p.rows[i := paid])]["ingresos" := Arr(incomes + [CxcIncome(paid, ingId, today)])])
  }

  /** Settling a known receivable: it, and no other, becomes paid on the
      day, and no property but `cxc` and `ingresos` changes. */
  lemma SettleCachedMarksPaid(rec: Record, id: string, ingId: string, today: string)
    requires PropOf(rec, "cxc").Arr? && AnyHasId(rec["cxc"].rows, id)
    requires NullishProp(PropOf(rec, "ingresos")) || PropOf(rec, "ingresos").Arr?
    ensures SettleCached(rec, id, ingId, today).Paid?
    ensures var r := SettleCached(rec, id, ingId, today).r;
      var rows := rec["cxc"].rows;
      var i := FindIndex(rows, id);
      r.Keys == rec.Keys + {"ingresos"} &&
      (forall k :: k in rec && k != "cxc" && k != "ingresos" ==> r[k] == rec[k]) &&
      r["cxc"].Arr? && |r["cxc"].rows| == |rows| &&
      Get(r["cxc"].rows[i], "estado") == Str("Pagado") && Get(r["cxc"].rows[i], "pagadoEn") == Str(today) &&
      (forall j :: 0 <= j < |rows| && j != i ==> r["cxc"].rows[j] == rows[j])
  {
  }

  /** Settling a known receivable pushes exactly one income, tagged with the
      receivable's id, after the incomes already there (none when `ingresos`
      was missing). */
  lemma SettleCachedPushesIncome(rec: Record, id: string, ingId: string, today: string)
    requires PropOf(rec, "cxc").Arr? && AnyHasId(rec["cxc"].rows, id)
    requires NullishProp(PropOf(rec, "ingresos")) || PropOf(rec, "ingresos").Arr?
    ensures SettleCached(rec, id, ingId, today).Paid?
    ensures var r := SettleCached(rec, id, ingId, today).r;
      var before := if PropOf(rec, "ingresos").Arr? then rec["ingresos"].rows else [];
      r["ingresos"].Arr? && |r["ingresos"].rows| == |before| + 1 &&
      r["ingresos"].rows[..|before|] == before &&
      Get(r["ingresos"].rows[|before|], "refId") == Str(id) &&
      Get(r["ingresos"].rows[|before|], "origen") == Str("CXC")
  {
  }

  /** The localStorage side of the application: the `xa_store_v1` map and the
      `xa_active_v1` key (absent when nothing set it). */
  class LocalCache {
    var store: map<string, Record>
    const activeKey: Option<string>

    constructor (store0: map<string, Record>, key: Option<string>)
      ensures store == store0 && activeKey == key
    {
      store := store0;
      activeKey := key;
    }

    /** `getActiveId()`: the stored key, or `"default"` when it is missing or
        empty. */
    function ActiveId(): (id: string)
      ensures id != ""
    {
      if activeKey.Some? && activeKey.value != "" then activeKey.value else "default"
    }

    /** `getActive()`: the entry for the active id is normalised, written
        back, and handed out as a fresh object. */
    method GetActive() returns (a: ActiveData)
      modifies this
      ensures fresh(a)
      ensures a.props == Normalize(Lookup(old(store), ActiveId()))
      ensures store == old(store)[ActiveId() := a.props]
    {
      var rec := Normalize(Lookup(store, ActiveId()));
      store := store[ActiveId() := rec];
      a := new ActiveData(rec);
    }

    /** `saveActiveData(active)`. */
    method SaveActiveData(a: ActiveData)
      modifies this
      ensures store == old(store)[ActiveId() := a.props]
    {
      store := store[ActiveId() := a.props];
    }

    /** `addOrUpdateAlumno()` with the form read into `fields` and the id
        (the edit id, or a fresh one) passed in: refused without a name;
        a record without a `alumnos` array makes `findIndex` throw; otherwise
        the student is put in place, the month's receivable added and the
        record saved. The record is normalised and saved in every case. */
    method AddOrUpdateAlumno(fields: Row, id: string, periodo: string, cxcId: string, today: string)
      returns (outcome: Outcome)
      modifies this
      ensures var rec := Normalize(Lookup(old(store), ActiveId()));
        var alumno := fields["id" := Str(id)];
        (outcome == Refused <==> !Truthy(Get(fields, "nombre"))) &&
        (outcome == Threw <==> Truthy(Get(fields, "nombre")) && !PropOf(rec, "alumnos").Arr?) &&
        (outcome != Saved ==> store == old(store)[ActiveId() := rec]) &&
        (outcome == Saved ==> store == old(store)[ActiveId() := AlumnoSaved(rec, alumno, id, periodo, cxcId, today)])
    {
      var a := GetActive();
      outcome := a.AddAlumno(fields, id, periodo, cxcId, today);
      if outcome == Saved {
        SaveActiveData(a);
      }
    }

    /** The first `markCxcPaid(id)` declaration, which the later one
        overrides: settles a receivable of the cached record. Only a
        settlement that reaches the push is saved; the normalised record is
        saved by `getActive` in every case. */
    method MarkCxcPaidShadowed(id: string, ingId: string, today: string) returns (outcome: Outcome)
      modifies this
      ensures var rec := Normalize(Lookup(old(store), ActiveId()));
        var s := SettleCached(rec, id, ingId, today);
        outcome == OutcomeOf(s) &&
        store == old(store)[ActiveId() := if s.Paid? then s.r else rec]
    {
      var a := GetActive();
      outcome := a.SettleCxc(id, ingId, today);
      if outcome == Saved {
        SaveActiveData(a);
      }
    }
  }
}
