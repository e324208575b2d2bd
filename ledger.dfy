/** Templates (one per month: app.js:134-164) and the settlement of a
    receivable into an income row by the `markCxcPaid` that the page ends up
    using (app.js:611-629, the later of the two declarations). */
module Ledger {
  import opened Json
  import opened Rows

  /** A template's array property: absent, as in a template read back from an
      imported backup that lacks it, or an array of rows. */
  datatype Coll = Missing | Rows(rows: seq<Row>)

  /** `c || []`. */
  function Items(c: Coll): seq<Row>
  {
    if c.Rows? then c.rows else []
  }

  /** A template, the record kept in the `templates` object store. */
  datatype Template = Template(id: string, name: string, createdAt: int, updatedAt: int,
                               ingresos: Coll, gastos: Coll, cxc: Coll, cxp: Coll,
                               inventario: Coll, alumnos: Coll)

  /** The `listName` of `upsert` and `delRow`. */
  datatype List = Ingresos | Gastos | Cxc | Cxp | Inventario | Alumnos

  function Collection(t: Template, l: List): Coll
  {
    match l
    case Ingresos => t.ingresos
    case Gastos => t.gastos
    case Cxc => t.cxc
    case Cxp => t.cxp
    case Inventario => t.inventario
    case Alumnos => t.alumnos
  }

  /** `t[listName] = c`: that array is replaced, everything else is kept. */
  function WithCollection(t: Template, l: List, c: Coll): (r: Template)
    ensures Collection(r, l) == c
    ensures forall m :: m != l ==> Collection(r, m) == Collection(t, m)
    ensures r.id == t.id && r.name == t.name && r.createdAt == t.createdAt && r.updatedAt == t.updatedAt
  {
    match l
    case Ingresos => t.(ingresos := c)
    case Gastos => t.(gastos := c)
    case Cxc => t.(cxc := c)
    case Cxp => t.(cxp := c)
    case Inventario => t.(inventario := c)
    case Alumnos => t.(alumnos := c)
  }

  /** `emptyTemplate(name)`, with the id from `uid()` and the clock reading
      passed in. */
  function EmptyTemplate(id: string, name: string, now: int): (t: Template)
    ensures t.id == id && t.name == name && t.createdAt == now && t.updatedAt == now
    ensures forall l :: Collection(t, l) == Rows([])
  {
    Template(id, name, now, now, Rows([]), Rows([]), Rows([]), Rows([]), Rows([]), Rows([]))
  }

  /** `copy` is `rows` with every row's `id` replaced by the matching fresh
      id and every other property carried over. */
  ghost predicate Reassigned(rows: seq<Row>, copy: seq<Row>, ids: seq<string>)
  {
    |copy| == |rows| == |ids| &&
    forall i :: 0 <= i < |rows| ==>
      Get(copy[i], "id") == Str(ids[i]) &&
      forall k :: k != "id" ==> Get(copy[i], k) == Get(rows[i], k)
  }

  /** `rows.map(x => ({...x, id: uid()}))`, with the ids passed in. */
  function Reid(rows: seq<Row>, ids: seq<string>): (r: seq<Row>)
    requires |ids| == |rows|
    ensures Reassigned(rows, r, ids)
  {
    if rows == [] then []
    else
      var n := |rows| - 1;
      Reid(rows[..n], ids[..n]) + [rows[n]["id" := Str(ids[n])]]
  }

  /** `cloneTemplate(fromTpl, name)`: a fresh empty template whose
      inventory, students, receivables and payables are copies of the
      source's with fresh ids; incomes and expenses start empty. One fresh id
      is supplied per copied row. */
  function CloneTemplate(from: Template, name: string, id: string, now: int,
                         invIds: seq<string>, alumnoIds: seq<string>,
                         cxcIds: seq<string>, cxpIds: seq<string>): (t: Template)
    requires |invIds| == |Items(from.inventario)| && |alumnoIds| == |Items(from.alumnos)|
    requires |cxcIds| == |Items(from.cxc)| && |cxpIds| == |Items(from.cxp)|
    ensures t.id == id && t.name == name && t.createdAt == now && t.updatedAt == now
    ensures t.ingresos == Rows([]) && t.gastos == Rows([])
    ensures t.inventario.Rows? && Reassigned(Items(from.inventario), Items(t.inventario), invIds)
    ensures t.alumnos.Rows? && Reassigned(Items(from.alumnos), Items(t.alumnos), alumnoIds)
    ensures t.cxc.Rows? && Reassigned(Items(from.cxc), Items(t.cxc), cxcIds)
    ensures t.cxp.Rows? && Reassigned(Items(from.cxp), Items(t.cxp), cxpIds)
  {
    EmptyTemplate(id, name, now).(
      inventario := Rows(Reid(Items(from.inventario), invIds)),
      alumnos := Rows(Reid(Items(from.alumnos), alumnoIds)),
      cxc := Rows(Reid(Items(from.cxc), cxcIds)),
      cxp := Rows(Reid(Items(from.cxp), cxpIds)))
  }

  /** A cloned receivable keeps its `alumnoId`, but the cloned students all
      get fresh ids: when those ids are new, no student of the clone is the
      one a cloned receivable points at. */
  lemma CloneUnlinksReceivables(from: Template, name: string, id: string, now: int,
                                invIds: seq<string>, alumnoIds: seq<string>,
                                cxcIds: seq<string>, cxpIds: seq<string>, i: nat, a: string)
    requires |invIds| == |Items(from.inventario)| && |alumnoIds| == |Items(from.alumnos)|
    requires |cxcIds| == |Items(from.cxc)| && |cxpIds| == |Items(from.cxp)|
    requires i < |Items(from.cxc)| && Get(Items(from.cxc)[i], "alumnoId") == Str(a)
    requires a !in alumnoIds
    ensures var t := CloneTemplate(from, name, id, now, invIds, alumnoIds, cxcIds, cxpIds);
      Get(Items(t.cxc)[i], "alumnoId") == Str(a) && !AnyHasId(Items(t.alumnos), a)
  {
    var t := CloneTemplate(from, name, id, now, invIds, alumnoIds, cxcIds, cxpIds);
    forall j | 0 <= j < |Items(t.alumnos)| ensures !HasId(Items(t.alumnos)[j], a) {
      assert Get(Items(t.alumnos)[j], "id") == Str(alumnoIds[j]);
    }
  }

  /** The income row `markCxcPaid` creates from receivable `r`. */
  function Income(r: Row, ingId: string, today: string): (inc: Row)
    ensures Get(inc, "id") == Str(ingId) && Get(inc, "fecha") == Str(today)
    ensures Get(inc, "nombre") == (if Truthy(Get(r, "nombre")) then Get(r, "nombre") else Str(""))
    ensures Get(inc, "concepto") == (if Truthy(Get(r, "concepto")) then Get(r, "concepto") else Str("CUOTA"))
    ensures Get(r, "monto").Num? ==> Get(inc, "monto") == Get(r, "monto")
    ensures !Truthy(Get(r, "monto")) ==> Get(inc, "monto") == Num(0)
    ensures Get(inc, "monto").Num? || Get(inc, "monto") == NaN
    ensures Get(inc, "medio") == Str("Efectivo") && Get(inc, "estado") == Str("Pagado")
    ensures Get(inc, "notas") == Str("Generado desde CxC")
  {
    map["id" := Str(ingId),
        "nombre" := Or(Get(r, "nombre"), Str("")),
        "fecha" := Str(today),
        "concepto" := Or(Get(r, "concepto"), Str("CUOTA")),
        "monto" := ToNumber(Or(Get(r, "monto"), Num(0))),
        "medio" := Str("Efectivo"),
        "estado" := Str("Pagado"),
        "notas" := Str("Generado desde CxC")]
  }

  /** What settling does to a template. */
  datatype Settlement =
    | NotFound                 // no receivable has the id: nothing happens
    | Settled(t: Template)     // marked paid and one income pushed
    | NoIncomes(t: Template)   // marked paid, then `ingresos.push` throws: no income, nothing saved

  /** `markCxcPaid(id)` on the active template, after the confirmation: the
      first receivable with the id gets `estado "Pagado"`, then the income is
      pushed onto `ingresos`, which fails when the template has no such array. */
  function Settle(t: Template, id: string, ingId: string, today: string): (s: Settlement)
    ensures s == NotFound <==> !AnyHasId(Items(t.cxc), id)
  {
    var rows := Items(t.cxc);
    var i := FindIndex(rows, id);
    if i < 0 then NotFound
    else
      var paid := rows[i]["estado" := Str("Pagado")];
      var marked := t.(cxc := Rows(rows[i := paid]));
      if t.ingresos.Missing? then NoIncomes(marked)
      else Settled(marked.(ingresos := Rows(t.ingresos.rows + [Income(paid, ingId, today)])))
  }

  /** Settling a known receivable marks it (and no other) paid, changes no
      other array, and pushes exactly one income built from it. */
  lemma SettleMarksPaid(t: Template, id: string, ingId: string, today: string)
    requires AnyHasId(Items(t.cxc), id) && t.ingresos.Rows?
    ensures Settle(t, id, ingId, today).Settled?
    ensures var u := Settle(t, id, ingId, today).t;
      var rows := Items(t.cxc);
      var i := FindIndex(rows, id);
      |Items(u.cxc)| == |rows| &&
      Get(Items(u.cxc)[i], "estado") == Str("Pagado") &&
      (forall k :: k != "estado" ==> Get(Items(u.cxc)[i], k) == Get(rows[i], k)) &&
      (forall j :: 0 <= j < |rows| && j != i ==> Items(u.cxc)[j] == rows[j]) &&
      Items(u.ingresos) == Items(t.ingresos) + [Income(rows[i], ingId, today)] &&
      u.gastos == t.gastos && u.cxp == t.cxp && u.inventario == t.inventario &&
      u.alumnos == t.alumnos && u.id == t.id && u.name == t.name
  {
    var rows := Items(t.cxc);
    var i := FindIndex(rows, id);
    var paid := rows[i]["estado" := Str("Pagado")];
    assert Income(paid, ingId, today) == Income(rows[i], ingId, today) by {
      assert Get(paid, "nombre") == Get(rows[i], "nombre");
      assert Get(paid, "concepto") == Get(rows[i], "concepto");
      assert Get(paid, "monto") == Get(rows[i], "monto");
    }
  }

  /** There is no guard against settling twice: settling an already paid
      receivable again pushes a second income. */
  lemma SettleTwiceAddsTwoIncomes(t: Template, id: string, ing1: string, ing2: string, today: string)
    requires AnyHasId(Items(t.cxc), id) && t.ingresos.Rows?
    ensures Settle(t, id, ing1, today).Settled?
    ensures var u := Settle(t, id, ing1, today).t;
      Settle(u, id, ing2, today).Settled? &&
      |Items(Settle(u, id, ing2, today).t.ingresos)| == |Items(t.ingresos)| + 2
  {
    SettleMarksPaid(t, id, ing1, today);
    var u := Settle(t, id, ing1, today).t;
    var i := FindIndex(Items(t.cxc), id);
    assert HasId(Items(u.cxc)[i], id);
    SettleMarksPaid(u, id, ing2, today);
  }
}
