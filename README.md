# xtreme-academy ledger core, in Dafny

The academy ledger is a browser application. It keeps one *template* per month. Each template holds the month's incomes (`ingresos`), expenses (`gastos`), receivables (`cxc`), payables (`cxp`), inventory and students (`alumnos`). The templates live in an IndexedDB object store, keyed by id and with a unique index on the name. A second, independent store is a localStorage map from an id to a record of arrays: the "active data" that the student screen edits. The application also exports each list as CSV and all lists as an uncompressed ZIP archive.

This project models, in Dafny:

- **The template registry** (`registry.dfy`):
  - the store, including its unique `byName` index;
  - the page state: the listed templates, the active id, the active template and the remembered active id;
  - bootstrap, activation, persisting, the create, clone and delete buttons, and the backup import;
  - the row edits on the active template (`upsert`, `delRow`, and the `markCxcPaid` the page ends up using).
- **Templates, rows and settlement**:
  - `ledger.dfy`: `emptyTemplate`, `cloneTemplate`, and the settlement of a receivable into an income row.
  - `rows.dfy`: the find, replace-or-push and filter on row arrays.
  - `json.dfy`: the JavaScript values the rows hold, with `||`, `??`, `===` and `Number(...)`.
- **The active-data cache** (`cache.dfy`):
  - `getActive`'s normalisation and `saveActiveData`;
  - `ensureCxc` and the monthly-fee receivable generator `addCuotaPendiente`;
  - `addOrUpdateAlumno`;
  - the first, overridden declaration of `markCxcPaid`.
- **The CSV writer** (`csv.dfy`), following section 2 (rules 6 and 7) of RFC 4180 with LF line ends. A reader for that format is included as an independent reference, and the writer's output is proved to read back.
- **The ZIP writer** (`zip.dfy`, `crc.dfy`), following the PKWARE .ZIP File Format Specification: local headers (section 4.3.7), central directory headers (section 4.3.12), the end of central directory record (section 4.3.16) and CRC-32 (section 4.4.7).
- **`app.dfy`**: the CSV export of a list, and `deleteAlumno`, which crosses the two stores.

Ids, dates and the clock are parameters: `uid()`, `todayISO()`, `monthISO()` and `Date.now()`. Strings are `seq<char>`, and ZIP input is bytes.

The model follows the code as written, including these behaviours of it, each stated by the member named with it:

- **Settling is not idempotent.** Settling a receivable twice pushes a second income (`Ledger.SettleTwiceAddsTwoIncomes`); nothing checks whether the receivable is already paid.
- **The fee generator does not deduplicate.** Its guard looks for `estado === "pendiente"` in lower case, while the row it pushes says `"Pendiente"`. A second call for the same student and month therefore appends again (`Cache.SecondCuotaAppendsAgain`).
- **Deleting a student does not cascade.** `deleteAlumno` filters the students of a copy that is never saved back, and it touches no receivable (`App.DeletedStudentStaysCached`).
- **Cloning copies receivables, not fresh fee rows.** A clone copies the receivables with new row ids but keeps their `alumnoId`, while the cloned students get new ids (`Ledger.CloneUnlinksReceivables`).
- **Deleting a template leaves the cache alone.** The active-data entry is keyed by `xa_active_v1`, which nothing writes: `setActiveId` (app.js:35-37) is never called. The two stores are modelled as two independent objects, and no operation reconciles them: `Registry.Registry.Delete` modifies only the registry.
- **The import can fail on a name.** A backup template whose name is stored under another key is refused by the `byName` index and ends the import (`Registry.ImportRefusesNameUnderOtherKey`).
- **`getActive` does not force `cxc` to be an array.** A stored non-array `cxc` is left as it is (`Cache.NormalizeKeepsNonArray`).

## Model

| member | source | states |
|---|---|---|
| Json.Or | app.js:618-621 | `a \|\| b` is `a` when `a` is truthy and `b` otherwise |
| Json.ToNumber | app.js:621 | `Number(v)` is a number or NaN; it keeps a number, maps `null` to 0 and `undefined` to NaN |
| Json.ParseNumber | app.js:621 | `Number` of a string is a number or NaN, and the empty string is 0 |
| Json.NatToString | utils.js:18 | `String(n)` of a natural number is a non-empty string of decimal digits |
| Json.IntToString | utils.js:18 | `String(n)` of an integer is never empty |
| Json.DigitsOfNat | utils.js:18 | the digits `String(n)` writes denote `n` |
| Json.NumberOfStringOfNumber | utils.js:18 | `Number(String(n)) == n` for every integer `n`: an integer cell reads back as the same number |
| Csv.NeedsQuotes | utils.js:19 | the test `/[",\n]/`: a quote, comma or LF; what quoting then gives is stated by Csv.CsvEscape |
| Csv.DoubleQuotes | utils.js:19 | `replace(/"/g, '""')`; Csv.DoubleQuotesKeeps and Csv.DoubledIsPaired state its properties |
| Csv.DoubleQuotesKeeps | utils.js:19 | doubling the quotes never shortens the text, and leaves a text without quotes unchanged |
| Csv.CsvEscape | utils.js:17-21 | null and undefined give `""`; text without `"`, `,` or LF is unchanged; otherwise the text is quoted, with inner quotes paired and collapsing back to the text |
| Csv.DoubledIsPaired | utils.js:19 | doubling the quotes gives text whose quotes come in pairs, and collapsing the pairs gives the original text back |
| Csv.QuotedBody | utils.js:19 | a quoted cell is `"` + the text with quotes doubled + `"`, so stripping the outer quotes and collapsing gives the text |
| Csv.HeaderCells | utils.js:36 | one escaped cell per header, in order |
| Csv.RowCells | utils.js:38 | one escaped cell per header, in order; a header the row lacks gives an empty cell |
| Csv.DataLines | utils.js:37-39 | one line per row, each the row's cells joined by commas |
| Csv.ToCsv | utils.js:35-41 | `toCSV` is the header line, LF, the data lines joined by LF, and a final LF; its round trip is Csv.ToCsvReadsBack |
| Csv.ToCsvShape | utils.js:35-41 | the output is the header line, LF, the data lines joined by LF, and a final LF; with no rows it is the header line and two LFs |
| Csv.ReadPlainBack | utils.js:20 | a cell that needs no quotes reads back as its text up to the next comma or LF |
| Csv.ReadQuotedBack | utils.js:19 | a quoted cell reads back as its text, with the rest of the input left |
| Csv.ReadFieldBack | utils.js:19-20 | every escaped cell reads back as its text |
| Csv.ReadRecordBack | utils.js:38 | a line of escaped cells joined by commas reads back as the list of texts |
| Csv.ParseRecords | utils.js:37-40 | records written one per LF-terminated line parse back to the same records |
| Csv.JoinLines | utils.js:39-40 | the data lines joined by LF plus the final LF are the records written line by line |
| Csv.CellsAreEscapedTexts | utils.js:36-38 | the header and row cells are the escapes of the header names and of the cell texts |
| Csv.EscapeAll | utils.js:36-38 | `map(csvEscape)` escapes each text in place, keeping the count |
| Csv.RowsTexts | utils.js:37-38 | one record of cell texts per row, in order |
| Csv.DataLinesAreRecords | utils.js:37-40 | the body of the output is the rows' texts written as records |
| Csv.ToCsvReadsBack | utils.js:35-41 | with at least one header and one row, reading the output gives the headers and each row's cell texts |
| Csv.ToCsvNoRowsReadsBack | utils.js:36-40 | with no rows, the output reads as the headers and one empty record |
| Csv.EmptyRowIsIndistinguishable | utils.js:36-40 | for one column, no rows and one empty row give the same text |
| Crc32.TableByte | app.js:909 | the inner loop of the table builder computes the table entry: eight conditional shifts by 0xEDB88320 |
| Crc32.MakeTable | app.js:909 | the builder fills a fresh array of 256 entries, entry `i` being `i` shifted eight times |
| Crc32.RegisterSnoc | app.js:906 | each loop step feeds one more byte into the register |
| Crc32.Feed | app.js:906 | one byte's update `(c>>>8) ^ table[(c ^ b) & 0xff]` on the bitwise table entries; Crc32.LookupFeeds ties it to the built table |
| Crc32.Register | app.js:906 | the register starting at `~0` after each byte in turn; Crc32.RegisterSnoc and Crc32.ComputeCrc state the loop computes it |
| Crc32.Crc | app.js:905-907 | the complemented register, as `~c>>>0`; Crc32.CrcOfEmpty and CrcCheck.CheckValue state its values |
| Crc32.LookupFeeds | app.js:906-909 | looking up a correctly built table is the per-byte CRC update |
| Crc32.ComputeCrc | app.js:905-907 | `crc32(buf)` is the complemented register after feeding every byte, starting from `~0` |
| Crc32.CrcOfEmpty | app.js:905-907 | the CRC of no bytes is 0 |
| CrcCheck.CheckValue | app.js:905-909 | the CRC of the ASCII digits 1 to 9 is 0xCBF43926, the catalogued check value of CRC-32 |
| CrcCheck.CheckFirst | app.js:905-909 | the register after the bytes `123` is 0x77B79C2D |
| CrcCheck.CheckSecond | app.js:905-909 | the register after the bytes `123456` is 0xF68D2C9E |
| Zip.ReadU16 | app.js:903 | `u16` emits two bytes, least significant first, that read back as the 16-bit value |
| Zip.ReadU32 | app.js:904 | `u32` emits four bytes, least significant first, that read back as the 32-bit value |
| Zip.U16 | app.js:903 | `u16` emits two bytes |
| Zip.U32 | app.js:904 | `u32` emits four bytes |
| Zip.ReadU16OfNumber | app.js:903 | `u16(n)` reads back as `n mod 2^16` |
| Zip.ReadU32OfNumber | app.js:904 | `u32(n)` reads back as `n mod 2^32` |
| Zip.FlattenLength | app.js:974 | the concatenation is as long as the summed lengths of the parts |
| Zip.FlattenSnoc | app.js:977 | one more part appends its bytes at the end |
| Zip.FlattenAppend | app.js:969 | concatenating two lists of parts concatenates their bytes |
| Zip.SetAt | app.js:977 | `out.set(a, p)` writes `a` at `p` and leaves the bytes before and after unchanged |
| Zip.PartFits | app.js:976-977 | each part fits in the output after the parts before it |
| Zip.Concat | app.js:972-979 | `concat(arr)` returns a fresh array holding the parts' bytes in order |
| Zip.PrefixLength | app.js:977 | the write position after `k + 1` parts is the position after `k` parts plus the length of part `k` |
| Zip.PartAt | app.js:972-979 | part `k` sits in the output at the summed lengths of the parts before it |
| Zip.LocalHeaderLayout | app.js:917-929 | a local header is 30 bytes: signature, method 0, the CRC and both sizes at their offsets, then the name length |
| Zip.CentralHeaderLayout | app.js:933-950 | a central header is 46 bytes: signature, method 0, the CRC, both sizes and the name length, and the local header's offset at bytes 42-46 |
| Zip.EndRecordLayout | app.js:960-967 | the end record is 22 bytes: signature, both entry counts, and the central directory's size and start |
| Zip.LocalFields | app.js:917-928 | the eleven pushed fields of a local header, in order; Zip.LocalHeaderLayout states their layout |
| Zip.CentralFields | app.js:933-948 | the seventeen pushed fields of a central header, in order; Zip.CentralHeaderLayout states their layout |
| Zip.EndFields | app.js:960-967 | the eight fields of the end record, in order; Zip.EndRecordLayout states their layout |
| Zip.ZipImage | app.js:911-969 | the archive bytes: local section, central directory, end record; Zip.BuildZip computes it and Zip.EndRecordReadsBack, Zip.LocalEntryAt and Zip.CentralRecordAt read it back |
| Zip.LocalEntryLength | app.js:953 | a local entry is 30 bytes plus the name plus the data |
| Zip.LocalSectionLength | app.js:930-953 | the local section is as long as the summed entry sizes that `offset` accumulates |
| Zip.EntriesSizeSnoc | app.js:953 | one more file adds its header, name and data lengths to the offset |
| Zip.LocalStep | app.js:930 | pushing a file's header, name and data extends the local section by that file's entry |
| Zip.CentralStep | app.js:949-951 | pushing a file's record and name extends the central directory by that file's record |
| Zip.ImageParts | app.js:969 | the archive is the local chunks, then the central directory, then the end record |
| Zip.WriteLocalHeader | app.js:917-929 | the pushed fields concatenate to the 30-byte local header of the file |
| Zip.WriteCentralHeader | app.js:933-950 | the pushed fields concatenate to the central header of the file at the given offset |
| Zip.WriteEntries | app.js:911-954 | the loop over the files builds the local section and the central directory; `offset` is the summed entry sizes |
| Zip.BuildZip | app.js:911-969 | the writer's bytes are the archive image: entries, central directory, end record |
| Zip.ArchiveParts | app.js:956-969 | the archive splits into the local section, the central directory and a 22-byte end record, in that order |
| Zip.EndFieldsAt | app.js:960-967 | an end record at the tail of the archive reads back its signature, counts, size and start |
| Zip.EndRecordReadsBack | app.js:956-967 | the end record's counts are the number of files, its size is the central directory's, and its start is where the central directory begins, just after the entries |
| Zip.LocalHeaderFields | app.js:917-929 | a reader finds, in a local header, the signature, method 0, the CRC of the data, its length as both sizes, and the name length |
| Zip.CentralHeaderFields | app.js:933-950 | a reader finds, in a central header, the same fields plus the local header's offset |
| Zip.LocalEntryAt | app.js:930-953 | file `k`'s entry sits in the local section at the summed sizes of the entries before it |
| Zip.CentralRecordAt | app.js:949-953 | file `k`'s central record follows the earlier records and names the summed sizes of the earlier entries as its offset |
| Rows.FindIndex | app.js:806 | `findIndex` by id: -1 exactly when no row has the id, otherwise the first row that has it |
| Rows.Upserted | app.js:803-812 | with no edit id the row is appended; an unknown edit id changes nothing; a found one replaces that row alone, keeping the length |
| Rows.ReplaceOrPush | app.js:1048-1050 | the first row with the id is replaced, and the others are kept; otherwise the row is appended |
| Rows.WithoutId | app.js:518 | the filter keeps exactly the rows without the id, and never lengthens the array |
| Rows.WithoutIdAppend | app.js:518 | the filter works row by row, so the remaining rows keep their relative order |
| Rows.WithoutIdNoneLeft | app.js:518 | after the filter no row has the id |
| Rows.WithoutIdOne | app.js:518 | a single row is kept exactly when it lacks the id |
| Rows.WithoutIdAbsent | app.js:518 | with no row carrying the id, the filter changes nothing |
| Ledger.WithCollection | app.js:811 | `t[listName] = c` replaces that array, and every other array and field is kept |
| Ledger.EmptyTemplate | app.js:141-154 | a new template has the given id and name, both timestamps, and six empty arrays |
| Ledger.Reid | app.js:159-162 | `map(x => ({...x, id: uid()}))` keeps the length and every field but `id`, which gets the fresh id |
| Ledger.CloneTemplate | app.js:156-164 | a clone has empty incomes and expenses, and copies of the inventory, students, receivables and payables with fresh ids and every other field kept |
| Ledger.CloneUnlinksReceivables | app.js:160-161 | a cloned receivable keeps its `alumnoId` while no cloned student keeps the id it points at |
| Ledger.Income | app.js:616-625 | the income has the given id and date, `nombre \|\| ""`, `concepto \|\| "CUOTA"`, `Number(monto \|\| 0)`, cash, paid, and the generated note |
| Ledger.Settle | app.js:611-626 | settling finds nothing exactly when no receivable has the id |
| Ledger.SettleMarksPaid | app.js:612-626 | settling a known receivable marks it, and no other, paid; it pushes one income built from it and changes no other array |
| Ledger.SettleTwiceAddsTwoIncomes | app.js:611-629 | settling the same receivable twice pushes two incomes |
| Registry.IndexOf | app.js:216 | `find` by id: -1 exactly when no template has the id, otherwise the first that has it |
| Registry.NameTaken | app.js:98 | another key holds the record's name, so the unique `byName` index refuses it; Registry.Put refuses exactly then |
| Registry.Put | app.js:96-121 | `put` is refused exactly when the name belongs to a record with another key; otherwise it keeps the other keys' records and adds or replaces the record, keeping keys and names distinct |
| Registry.DeleteKey | app.js:123-130 | `delete(id)` leaves no record with the key and keeps every other record; an absent key changes nothing |
| Registry.DeleteKeyIds | app.js:123-130 | with distinct keys, a delete removes at most one record and keeps the keys distinct |
| Registry.DeleteKeyNames | app.js:123-130 | a delete keeps the names distinct |
| Registry.Chosen | app.js:186 | the activated template is the one with the remembered id when it is listed, otherwise the last one |
| Registry.IndexOfUnique | app.js:216 | with distinct keys, `find` returns the only template with that key |
| Registry.Normalized | app.js:856-857 | a backup template without an id gets the fresh one; every template is stamped with the clock |
| Registry.SetByName | app.js:858 | `byName.set` replaces an existing name's entry in place, or appends a new name, keeping names distinct |
| Registry.SetNameAt | app.js:858 | with distinct names, `set` replaces exactly the entry holding the name |
| Registry.Merged | app.js:853-859 | the merge by name keeps names distinct |
| Registry.PutAll | app.js:860-862 | putting the merged templates in turn never shrinks the store and keeps keys and names distinct |
| Registry.PutStored | app.js:861 | putting back a record the store holds changes nothing |
| Registry.PutAllStored | app.js:860-862 | putting back the store's own first records changes nothing |
| Registry.PutAllStops | app.js:860-862 | once a put is refused, the later templates are not stored |
| Registry.SetByNameMember | app.js:858 | with distinct names, `set` leaves the new value and exactly the entries under other names |
| Registry.MergedMember | app.js:853-859 | the merge holds exactly the stored templates whose name no backup template uses and each normalised backup template that no later one overrides by name |
| Registry.LastOfNameNewest | app.js:855-858 | the newest backup template is the last of its name |
| Registry.LastOfNameKept | app.js:855-858 | an earlier backup template stays the last of its name when the new one has another name |
| Registry.LastOfNameEarlier | app.js:855-858 | a last-of-its-name other than the newest was one before, under another name |
| Registry.PutAllKeepsValue | app.js:860-862 | after puts that all succeed, every value that no later value replaces by key is stored |
| Registry.PutAllKeepsStored | app.js:860-862 | after puts that all succeed, every earlier record whose key no value carries is still stored |
| Registry.PutAllOnlyValues | app.js:860-862 | every record after the puts was stored before or put |
| Registry.ImportStoresByName | app.js:849-862 | a successful import whose merge has distinct keys stores each last-of-its-name backup template and each stored template whose name the backup does not use |
| Registry.ImportRefusesNameUnderOtherKey | app.js:853-862 | a backup template whose name the store holds under another key makes the import fail |
| Registry.MergeByName | app.js:853-859 | the first import loop computes the merge by name |
| Registry.StoreAll | app.js:860-862 | the second import loop puts each template until a put is refused, keeping the earlier puts |
| Registry.Registry.Init | app.js:173-188 | bootstrap keeps a non-empty store; an empty one gets one empty template; the list is the store and the active template is the remembered one or the last |
| Registry.Registry.SetActiveTemplate | app.js:215-222 | an unknown id changes nothing; a listed one becomes active and is remembered |
| Registry.Registry.PersistActive | app.js:238-245 | the active template is stamped and put; when the put succeeds, the list is read back |
| Registry.Registry.Create | app.js:732-741 | refused, with no change, on a listed name; otherwise the empty template is stored and becomes active |
| Registry.Registry.Clone | app.js:742-753 | succeeds exactly when the base is listed, the name is free and the put of the clone is accepted; the clone is then stored and becomes active; otherwise nothing changes |
| Registry.Registry.Delete | app.js:757-765 | refused exactly when at most one template is listed; otherwise the active template's record goes and the last listed template becomes active |
| Registry.Registry.Import | app.js:842-869 | the store is the result of putting the merge in turn (what that stores is Registry.ImportStoresByName); on success the list is read back and the active template kept when still listed; on failure the list and active template are unchanged |
| Registry.Registry.Upsert | app.js:803-812 | the active template's list becomes the upserted list, and nothing else changes |
| Registry.Registry.DelRow | app.js:516-520 | the rows with the id are filtered out of the active template, which is then persisted; the active and remembered ids are kept |
| Registry.Registry.MarkCxcPaid | app.js:611-629 | an unknown receivable changes nothing; a failed income push leaves the template marked but unsaved; otherwise the settled template is persisted; the active and remembered ids are kept |
| Cache.FreshRecord | app.js:43-49 | a new record has exactly the five arrays, all empty |
| Cache.Normalize | app.js:39-56 | the normalised entry has a non-nullish `cxc`; a missing entry is the fresh record; only a nullish `cxc` is replaced, by `[]` |
| Cache.NormalizeKeeps | app.js:52 | an existing entry keeps all its properties, and only a nullish `cxc` changes |
| Cache.NormalizeIdempotent | app.js:39-56 | normalising twice is normalising once |
| Cache.NormalizeKeepsNonArray | app.js:52 | a non-nullish, non-array `cxc` survives normalisation |
| Cache.CuotaRow | app.js:75-85 | the pushed receivable carries the student's id, name and programme, `Number(cuota \|\| 0)`, the month, "Cuota mensual" and "Pendiente", and does not satisfy the guard |
| Cache.IsPending | app.js:67-71 | the guard's test on one receivable: the student's id, the month and `estado === "pendiente"`; Cache.CuotaRow shows the pushed row fails it |
| Cache.HasPending | app.js:67-71 | `some` receivable passes the guard; Cache.WithCuotaUnchangedIff states the receivables stay unchanged exactly then |
| Cache.WithCuota | app.js:67-85 | a pending receivable for the student and month keeps the receivables; otherwise exactly one is appended and the earlier rows are kept |
| Cache.WithCuotaUnchangedIff | app.js:67-73 | the receivables stay unchanged exactly when the guard finds a pending one |
| Cache.SecondCuotaAppendsAgain | app.js:70-83 | a second call for the same student and month appends a second receivable |
| Cache.ActiveData.EnsureCxc | app.js:58-60 | an array `cxc` is kept; anything else becomes `[]` |
| Cache.ActiveData.AddCuotaPendiente | app.js:62-86 | the record's `cxc` becomes the ensured array with the monthly receivable added |
| Cache.ActiveData.PutAlumno | app.js:1048-1052 | a non-array `alumnos` throws with no change; otherwise the student is put and the receivable added |
| Cache.ActiveData.AddAlumno | app.js:1029-1052 | refused exactly when the name is falsy; throws exactly when `alumnos` is not an array; otherwise the student is saved |
| Cache.ActiveData.SettleCxc | app.js:377-393 | the settlement's outcome; a non-array `cxc` or an unknown id changes nothing; a throwing push leaves the receivable marked; success gives the settled record |
| Cache.AlumnoSaved | app.js:1048-1052 | after saving a student, `alumnos` is the replace-or-push and `cxc` the receivables with the fee row added |
| Cache.AlumnoSavedKeeps | app.js:1048-1052 | saving a student touches only `alumnos` and `cxc` |
| Cache.AlumnoSavedStudents | app.js:1048-1050 | a new student is appended with the others kept in place; a listed one is replaced where it is |
| Cache.CxcIncome | app.js:385-393 | the income has id `"ing_" + uid`, the date, `concepto \|\| "Cuota"`, the receivable's name and amount, origin "CXC" and the receivable's id as `refId` |
| Cache.PaidRow | app.js:380-381 | the receivable with `estado` "Pagado" and `pagadoEn` the day, every other field kept |
| Cache.OutcomeOf | app.js:376-395 | the record is saved exactly when the settlement succeeds |
| Cache.SettleCached | app.js:376-395 | a non-array `cxc` makes `find` throw, an unknown id returns, a non-array, non-nullish `ingresos` makes `push` throw, and the settlement succeeds otherwise |
| Cache.SettleCachedMarksPaid | app.js:378-384 | settling marks that receivable alone paid on the day and changes no property but `cxc` and `ingresos` |
| Cache.SettleCachedPushesIncome | app.js:384-393 | settling pushes exactly one income, tagged "CXC" with the receivable's id, after the existing incomes (none when `ingresos` was missing) |
| Cache.LocalCache.ActiveId | app.js:31-33 | the active id is never empty: the stored key, or "default" |
| Cache.LocalCache.GetActive | app.js:39-56 | the normalised entry is written back under the active id, other ids untouched, and handed out as a fresh object |
| Cache.LocalCache.SaveActiveData | app.js:208-213 | the record is stored under the active id, and other ids are untouched |
| Cache.LocalCache.AddOrUpdateAlumno | app.js:1028-1057 | refused exactly when the name is falsy; throws exactly when `alumnos` is not an array; a saved student gives the stored record with the student put and the fee row added; the normalised record is stored in every case |
| Cache.LocalCache.MarkCxcPaidShadowed | app.js:376-399 | the outcome is the settlement's; the store holds the settled record on success, and the normalised one otherwise |
| App.Headers | app.js:878-883 | every exported list has columns; the students list has none |
| App.ListCsv | app.js:875-884 | the text `exportCSV` downloads: `toCSV` of the list with its columns; its round trip is App.ListCsvReadsBack |
| App.ListCsvReadsBack | app.js:875-884 | an exported list reads back as its columns, then each row's texts, or one empty record when the list is empty |
| App.DeleteAlumno | app.js:1076-1082 | the active-data entry is only normalised, never filtered; when `alumnos` is an array the active template is stamped and put, the list read back when the put succeeds and kept when it is refused, and the ids kept; otherwise the filter throws and nothing is persisted |
| App.DeletedStudentStaysCached | app.js:1076-1081 | after `deleteAlumno` the cached record still lists the deleted student |

## Left out

- **Storage I/O.**
  - The IndexedDB wrapper and localStorage access are abstracted: `openDB`, `dbGetAll`, `dbPut` and `dbDelete`, and `xaLoad` and `xaSave`.
  - The stores are modelled as a sequence of templates and a map of records.
  - JSON round-tripping is not modelled: NaN becoming null, undefined fields dropped, and a corrupted store read as `{}`.
- **Registry.Registry.Init, Registry.Registry.Delete, Registry.Registry.Import: list order.** The page sorts the template list with `localeCompare`, a locale-dependent comparison outside the model. The model keeps the list in store order, so "the last template" means the last in store order rather than in name order.
- **Registry.Put: store order.** A new record is appended, whereas IndexedDB returns records in key order.
- **Registry.Registry.PersistActive: asynchrony.** The put is asynchronous. A refused put is modelled as leaving the list unread, and the rejected promise is not modelled.
- **Aliasing.** `state.active` is the same object as an entry of `state.templates`.
  - Edits through `upsert` and `markCxcPaid` are visible in the list before the next read-back.
  - The model keeps the active template as a value.
- **UI.**
  - The DOM, rendering, event wiring and form helpers are left out.
  - `confirm` and `alert` are left out: only the confirmed path is modelled, and a refused confirmation changes nothing.
- **Ids and clock.** `uid`, `todayISO`, `monthISO` and `Date.now` are parameters, and the callers supply fresh ids.
- Ledger.EmptyTemplate: takes one clock reading for both timestamps; `emptyTemplate` calls `Date.now()` twice (app.js:145-146), so its `createdAt == updatedAt` holds in the model but is not guaranteed by the code.
- Registry.Merged: stamps every backup template with one clock reading; the import reads the clock once per template (app.js:857).
- **Cache.ActiveData.AddAlumno: the form.** The student row is built from what the form fields give. `trim()` and `Number(alCuota)` are not modelled.
- **Numbers.**
  - Amounts are integers. `Number(...)` is modelled on integers and digit strings only, and any other string is NaN.
  - JavaScript floating point is left out, and so are the dashboard sums.
- **Encoding and downloads.**
  - `TextEncoder` and UTF-8 are not modelled: ZIP names and contents are byte sequences.
  - The archive's file list is not built from a template, because it needs that encoding.
  - `Blob`, `download`, and the file names of the downloads are left out.
- **Other functions.** `exportBackup`, `money`, `calcAge`, `textMatch` and `inMonth` are not part of this model.
- **Crc32.ComputeCrc: bitwise equivalence.** The table-driven CRC is proved against its specification and the catalogued check value. Its equivalence, for all inputs, to the bit-at-a-time CRC is not proved.
- **Cross-store reconciliation.** Cascades between the stores are not modelled, because the code implements none.
- **sw.js** is not part of this model: it is a service-worker cache.
