/** Operations that join the pieces: the CSV export of a template's list
    (app.js:875-886 and the file list of app.js:891-897), and `deleteAlumno`
    (app.js:1076-1082), which filters the students of the cached record but
    persists the active template of the registry. */
module App {
  import opened Json
  import opened Rows
  import opened Cache
  import opened Csv
  import Ledger
  import Registry

  /** The columns `exportCSV` writes for each list; the student list has
      none (it is never exported). */
  function Headers(l: Ledger.List): (h: seq<string>)
    ensures l != Ledger.Alumnos <==> |h| > 0
  {
    match l
    case Ingresos => ["fecha", "nombre", "concepto", "monto", "medio", "estado", "notas"]
    case Gastos => ["fecha", "concepto", "categoria", "monto", "notas"]
    case Cxc => ["vence", "nombre", "concepto", "monto", "estado", "notas"]
    case Cxp => ["vence", "proveedor", "concepto", "monto", "estado", "notas"]
    case Inventario => ["categoria", "producto", "stock", "minimo", "costo"]
    case Alumnos => []
  }

  /** The text `exportCSV(listName)` downloads, and the data of the list's
      file in the archive of `exportAllZip`. */
  function ListCsv(t: Ledger.Template, l: Ledger.List): string
  {
    ToCsv(Ledger.Items(Ledger.Collection(t, l)), Headers(l))
  }

  /** Reading an exported list back gives its column names, then one record per
      row holding the text of each column's value; an empty list reads as
      the header and one empty record. */
  lemma ListCsvReadsBack(t: Ledger.Template, l: Ledger.List)
    requires l != Ledger.Alumnos
    ensures var rows := Ledger.Items(Ledger.Collection(t, l));
      ParseCsv(ListCsv(t, l)) == [Headers(l)] + (if rows == [] then [[""]] else RowsTexts(rows, Headers(l)))
  {
    var rows := Ledger.Items(Ledger.Collection(t, l));
    if rows == [] {
      ToCsvNoRowsReadsBack(Headers(l));
    } else {
      ToCsvReadsBack(rows, Headers(l));
    }
  }

  /** `deleteAlumno(id)` after the confirmation, as written: the students are
      filtered on the copy `getActive` hands out, which is never saved back;
      what is saved is the registry's active template, stamped. A cached
      record whose `alumnos` is not an array makes `filter` throw before the
      template is persisted. */
  method DeleteAlumno(cache: LocalCache, reg: Registry.Registry, id: string, now: int) returns (persisted: bool)
    requires reg.Valid()
    modifies cache, reg
    ensures reg.Valid()
    ensures var rec := Normalize(Lookup(old(cache.store), cache.ActiveId()));
      cache.store == old(cache.store)[cache.ActiveId() := rec] &&
      persisted == PropOf(rec, "alumnos").Arr?
    ensures !persisted ==> unchanged(reg)
    ensures persisted ==>
      reg.active == old(reg.active).(updatedAt := now) &&
      reg.activeTemplateId == old(reg.activeTemplateId) && reg.savedActive == old(reg.savedActive)
    ensures persisted && Registry.Put(old(reg.db), reg.active).Some? ==>
      reg.db == Registry.Put(old(reg.db), reg.active).value && reg.templates == reg.db
    ensures persisted && Registry.Put(old(reg.db), reg.active).None? ==>
      reg.db == old(reg.db) && reg.templates == old(reg.templates)
  {
    var a := cache.GetActive();
    if !PropOf(a.props, "alumnos").Arr? {
      return false;
    }
    a.props := a.props["alumnos" := Arr(WithoutId(a.props["alumnos"].rows, id))];
    reg.PersistActive(now);
    persisted := true;
  }

  /** Deleting a student leaves the cached student list as it was: the
      record `deleteAlumno` leaves in the store still lists a student with
      the id. */
  lemma DeletedStudentStaysCached(rec: Record, id: string, i: nat)
    requires PropOf(rec, "alumnos").Arr? && i < |rec["alumnos"].rows| && HasId(rec["alumnos"].rows[i], id)
    ensures var r := Normalize(Some(rec));
      PropOf(r, "alumnos") == rec["alumnos"] && AnyHasId(r["alumnos"].rows, id)
  {
    NormalizeKeeps(rec);
  }
}
