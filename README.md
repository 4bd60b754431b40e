# Benchmark: DynamoDB and PostgreSQL repositories and benchmark services

This project models the core of the `BenchmarkFinanceiro` benchmark. The benchmark writes
synthetic financial values (`Valor`: a family, a series, an attribute, a file, an amount,
a validity date and an update instant) to two stores and reads them back through several
access paths.

- **DynamoDB side.**
  - `DynamoItems` models the item codec: `ConvertToDynamoDBItem` / `ConvertFromDynamoDBItem`
    and the composite sort key `NomeAtributo#yyyyMMdd`.
  - `DynamoFilters` models the scan filter builders (`BuildFilterExpression`,
    `BuildExpressionAttributeValues`).
  - `DynamoTable` models a key-value table as a sequence of items with unique primary keys,
    with put, delete, query and scan pages.
  - `DynamoQueries` models the query descriptors behind every `Get*Async`.
  - `DynamoRepository` models the repository as a class over that table: put, batch write,
    get item, filtered scan, the paging loops of `CaptureBatchAsync` and
    `DeleteAllItemsAsync`.
  - `DynamoService` models `BenchmarkDynamoDbService`: de-duplication and chunking of batch
    inserts, the read loops, and the `CriarDados` generator.
- **PostgreSQL side.**
  - `PostgresFilters` models the WHERE builders.
  - `PostgresRepository` models:
    - the reference tables written with `ON CONFLICT DO NOTHING`;
    - the `Valor` upsert on (`NomeSerie`, `NomeAtributo`, `DataAtualizacao`);
    - `GetValorAsync`, the filtered select and `TRUNCATE`.
  - `PostgresService` models `BenchmarkPostgresService`: the insert phases, the read loops and
    `CriarDados`.
- **Support modules.**
  - `Dates` models `DateOnly`, the `yyyyMMdd` and `yyyy-MM-ddTHH:mm:ss` formats and
    `AddDays(-1)`.
  - `Decimals` models invariant and culture-dependent decimal text.
  - `Sequences` models the LINQ operators the services use (`DistinctBy`, `Distinct`, `Chunk`,
    nested loops).
  - `Wrappers` holds the `Result`/`Option` types.
  - The property modules `DynamoServiceProps` and `PostgresServiceProps` state what the read
    loops and generators return.

The database clients are replaced by state the repositories own: the DynamoDB table is a
`seq` of items, and the PostgreSQL tables are maps and a `seq`. A scan's responses are given
as a parameter: a sequence of pages, each with its items and its `LastEvaluatedKey`. The
random generator (Faker) and the clock are parameters of `CriarDados`.

## Model

| member | source | states |
|---|---|---|
| DynamoItems.ConvertToItem | src/Repositories/DynamoDBRepository.cs:354-368 | the item has exactly the nine attributes written, and its primary key is (NomeSerie, NomeAtributo#yyyyMMdd) |
| DynamoItems.Attribute | src/Repositories/DynamoDBRepository.cs:374-381 | indexing an item succeeds exactly when the attribute is present, and then yields that attribute (a missing one is KeyNotFoundException) |
| DynamoItems.SortKeyParts | src/Repositories/DynamoDBRepository.cs:360 | the sort key is the attribute name, '#', then the eight-digit date |
| DynamoItems.SortKeyInjective | src/Repositories/DynamoDBRepository.cs:360 | two sort keys are equal if and only if their attribute names and dates are equal (the date is the fixed-width tail) |
| DynamoItems.ValorKeyIff | src/Repositories/DynamoDBRepository.cs:357-360 | two values share a primary key if and only if they share series, attribute and start date |
| DynamoItems.ConvertRoundTrip | src/Repositories/DynamoDBRepository.cs:354-383 | reading a written value under any culture whose decimal separator is '.' gives it back, with the update instant cut to the second |
| DynamoItems.ConvertRoundTripInvariant | src/Repositories/DynamoDBRepository.cs:354-383 | with the invariant reader, write then read gives the value back, with the update instant cut to the second |
| DynamoItems.CurrentCultureMisreadsAmount | src/Repositories/DynamoDBRepository.cs:378 | under pt-BR the current-culture read of a stored 12.5 yields 125 |
| DynamoItems.ConvertedFields | src/Repositories/DynamoDBRepository.cs:358-366 | each attribute of a written item holds the matching field's text |
| DynamoItems.ReadStoredNames | src/Repositories/DynamoDBRepository.cs:374-377 | the name attributes of a written item read back as the value's names |
| DynamoItems.ReadStoredDates | src/Repositories/DynamoDBRepository.cs:379-380 | the date attributes of a written item parse back to the value's dates |
| DynamoItems.ReadStoredTimestamp | src/Repositories/DynamoDBRepository.cs:366 | the update instant reads back without its sub-second ticks |
| DynamoItems.StoredQueryAttributes | src/Repositories/DynamoDBRepository.cs:358-364 | the attributes the queries compare hold the value's names, composite key and date text |
| DynamoItems.EmptyItemFails | src/Repositories/DynamoDBRepository.cs:374 | converting the empty item fails on the first attribute read, NomeFamilia |
| Decimals.ParseFormatInvariant | src/Repositories/DynamoDBRepository.cs:363 | the invariant text of a decimal parses back to it under any culture with '.' as separator |
| Decimals.BrazilianCultureMisreadsAmount | src/Repositories/DynamoDBRepository.cs:378 | "12.5" is the invariant text of 12.5, and pt-BR reads it as 125 |
| Decimals.FrenchCultureRejectsAmount | src/Repositories/DynamoDBRepository.cs:378 | under fr-FR "12.5" does not parse |
| Decimals.ParseNatToString | src/Repositories/DynamoDBRepository.cs:363 | the digits of a natural number are non-empty, all digits, and parse back to it |
| Dates.ParseFormatDate | src/Repositories/DynamoDBRepository.cs:364-365 | formatting a date as yyyyMMdd and parsing it exactly gives the date back |
| Dates.FormatDateShape | src/Repositories/DynamoDBRepository.cs:364 | the yyyyMMdd text has eight characters, all digits |
| Dates.FormatDateInjective | src/Repositories/DynamoDBRepository.cs:364 | two dates with the same yyyyMMdd text are equal |
| Dates.ParseFormatTimestamp | src/Repositories/DynamoDBRepository.cs:366 | the yyyy-MM-ddTHH:mm:ss text of an instant parses back to it with zero ticks |
| Dates.PreviousDayNumber | src/Services/BenchmarkDynamoDbService.cs:512 | AddDays(-1) lowers the day number by exactly one |
| Dates.VigenciaNumber | src/Services/BenchmarkDynamoDbService.cs:509-512 | the date of the n-th day of the generator lies n days before today |
| Dates.VigenciaStep | src/Services/BenchmarkPostgresService.cs:284-287 | one more AddDays(-1) from the n-th date gives the (n+1)-th date |
| DynamoFilters.BuildFilterExpression | src/Repositories/DynamoDBRepository.cs:385-397 | the expression is the " AND " join of the given conditions in source order, and it is empty exactly when no condition is given |
| DynamoFilters.FilterPartsAreConditionTexts | src/Repositories/DynamoDBRepository.cs:389-394 | the parts the builder appends are the comparison texts of the conditions, one per given argument |
| DynamoFilters.FilterPartsNonEmpty | src/Repositories/DynamoDBRepository.cs:389-394 | no appended part is empty |
| DynamoFilters.FilterExpressionEmptyIff | src/Repositories/DynamoDBRepository.cs:396 | the joined expression is empty if and only if there are no conditions |
| DynamoFilters.ConditionsWellFormed | src/Repositories/DynamoDBRepository.cs:389-394 | each condition compares its own attribute with its own placeholder |
| DynamoFilters.BuildExpressionAttributeValues | src/Repositories/DynamoDBRepository.cs:399-411 | the map binds exactly the placeholders of the given conditions, each to its argument |
| DynamoFilters.ValuesKeys | src/Repositories/DynamoDBRepository.cs:403-408 | the map's keys are exactly the conditions' placeholders |
| DynamoFilters.MatchesIff | src/Repositories/DynamoDBRepository.cs:346-347 | an item passes the built filter if and only if it satisfies every non-blank string argument and every given date |
| DynamoFilters.NarrowerFilterMatchesFewer | src/Repositories/DynamoDBRepository.cs:389-394 | giving more arguments never lets more items through |
| DynamoFilters.NoFilterKeepsAll | src/Repositories/DynamoDBRepository.cs:396 | with no argument there are no conditions and no values, and every item passes |
| DynamoFilters.StoredItemMatchesIff | src/Repositories/DynamoDBRepository.cs:346-347 | a written value passes the filter if and only if its fields satisfy the arguments |
| DynamoFilters.MatchedReadSatisfies | src/Repositories/DynamoDBRepository.cs:351 | a value read from an item that passed the filter has fields satisfying the arguments |
| DynamoTable.Lookup | src/Repositories/DynamoDBRepository.cs:117-131 | a lookup finds an item with the key if one is stored, and otherwise reports that none is |
| DynamoTable.PutKeysUnique | src/Repositories/DynamoDBRepository.cs:23-31 | a put keeps primary keys unique |
| DynamoTable.PutLookup | src/Repositories/DynamoDBRepository.cs:23-31 | after a put, the item's key yields the new item and every other key is unchanged |
| DynamoTable.PutLength | src/Repositories/DynamoDBRepository.cs:23-31 | a put adds one item for a new key and replaces the item for an existing one |
| DynamoTable.PutAllKeysUnique | src/Repositories/DynamoDBRepository.cs:102-115 | a batch of puts keeps primary keys unique |
| DynamoTable.PutAllLookup | src/Repositories/DynamoDBRepository.cs:102-115 | after a batch with distinct keys, each batch item is found under its key |
| DynamoTable.Without | src/Repositories/DynamoDBRepository.cs:53-61 | deleting a key leaves exactly the items with other keys |
| DynamoTable.WithoutAll | src/Repositories/DynamoDBRepository.cs:49-63 | deleting a list of keys leaves exactly the items whose key is not in the list |
| DynamoTable.Select | src/Repositories/DynamoDBRepository.cs:135-149 | the key-condition matches are exactly the stored items satisfying every equality |
| DynamoTable.Page | src/Repositories/DynamoDBRepository.cs:151 | a response page is a prefix of at most the page size, and it is everything when everything fits |
| DynamoTable.QueryItemsProps | src/Repositories/DynamoDBRepository.cs:151-152 | a query returns only items that satisfy its key condition and filter, and all of them when they fit in a page |
| DynamoTable.PagesUntilEndProps | src/Repositories/DynamoDBRepository.cs:38-65 | the pages read end at the first page whose cursor is null or empty, and every earlier page has a non-empty cursor |
| DynamoQueries.QueryResultsFromSelected | src/Repositories/DynamoDBRepository.cs:151-153 | each value a query returns is read from a stored item the request selects |
| DynamoQueries.FamiliaDataSelectsStored | src/Repositories/DynamoDBRepository.cs:133-149 | GsiBuscaFamilia by family and date selects a written value if and only if it has that family and date |
| DynamoQueries.FamiliaDataSelectsRead | src/Repositories/DynamoDBRepository.cs:133-153 | a value read from a selected item has the requested family and date |
| DynamoQueries.FamiliaSelectsStored | src/Repositories/DynamoDBRepository.cs:156-170 | GsiBuscaFamilia by family selects a written value if and only if it has that family |
| DynamoQueries.FamiliaSelectsRead | src/Repositories/DynamoDBRepository.cs:156-174 | a value read from a selected item has the requested family |
| DynamoQueries.SerieFamiliaDataSelectsStored | src/Repositories/DynamoDBRepository.cs:177-196 | BuscarFamilia plus the date filter selects a written value if and only if family, series and date match |
| DynamoQueries.SerieFamiliaDataSelectsRead | src/Repositories/DynamoDBRepository.cs:177-200 | a value read from a selected item has the requested family, series and date |
| DynamoQueries.SerieFamiliaSelectsStored | src/Repositories/DynamoDBRepository.cs:203-219 | BuscarFamilia selects a written value if and only if family and series match |
| DynamoQueries.SerieFamiliaSelectsRead | src/Repositories/DynamoDBRepository.cs:203-223 | a value read from a selected item has the requested family and series |
| DynamoQueries.SerieAtributoDataSelectsStored | src/Repositories/DynamoDBRepository.cs:226-245 | BuscarAtributo plus the date filter selects a written value if and only if series, attribute and date match |
| DynamoQueries.SerieAtributoDataSelectsRead | src/Repositories/DynamoDBRepository.cs:226-249 | a value read from a selected item has the requested series, attribute and date |
| DynamoQueries.SerieAtributoSelectsStored | src/Repositories/DynamoDBRepository.cs:252-268 | BuscarAtributo selects a written value if and only if series and attribute match |
| DynamoQueries.SerieAtributoSelectsRead | src/Repositories/DynamoDBRepository.cs:252-272 | a value read from a selected item has the requested series and attribute |
| DynamoQueries.ItemSerieAtributoSelectsStored | src/Repositories/DynamoDBRepository.cs:275-290 | the base-table query by series and composite key selects a written value if and only if series, attribute and date match |
| DynamoQueries.ItemSerieAtributoSelectsRead | src/Repositories/DynamoDBRepository.cs:275-294 | a value read from a selected item has the requested series |
| DynamoQueries.SerieDataSelectsStored | src/Repositories/DynamoDBRepository.cs:297-313 | BuscarDataInicioVigencia selects a written value if and only if series and date match |
| DynamoQueries.SerieDataSelectsRead | src/Repositories/DynamoDBRepository.cs:297-317 | a value read from a selected item has the requested series and date |
| DynamoQueries.SerieSelectsStored | src/Repositories/DynamoDBRepository.cs:320-334 | BuscarDataInicioVigencia by series selects a written value if and only if its series matches |
| DynamoQueries.SerieSelectsRead | src/Repositories/DynamoDBRepository.cs:320-338 | a value read from a selected item has the requested series |
| DynamoQueries.FamiliaDataResults | src/Repositories/DynamoDBRepository.cs:133-154 | every value returned has the family and date, and when the matches fit in a page every stored match is returned |
| DynamoRepository.BatchRequestProps | src/Repositories/DynamoDBRepository.cs:104-113 | the batch holds one put per value, in order, under that value's key, and the puts read back as the values |
| DynamoRepository.BatchAcceptedIff | src/Repositories/DynamoDBRepository.cs:102-115 | the model accepts a BatchWriteItem request exactly when it holds 1 to 25 values with pairwise distinct keys (the size and empty-key limits are not modelled) |
| DynamoRepository.KeyItem | src/Repositories/DynamoDBRepository.cs:117-131 | a missing key answers the empty item, whose conversion fails on NomeFamilia (with a client that answers an empty, not a null, `Item`) |
| DynamoRepository.KeyItemAfterPut | src/Repositories/DynamoDBRepository.cs:23-31 | a value put and then fetched by its series and composite key reads back as written, to the second |
| DynamoRepository.ScanResults | src/Repositories/DynamoDBRepository.cs:341-352 | every value the filtered scan returns satisfies the filter, and when the table fits in one page every stored match is returned |
| DynamoRepository.CaptureFromProps | src/Repositories/DynamoDBRepository.cs:75-97 | the loop stops at the first page after which the count reached the limit or the cursor is null or empty |
| DynamoRepository.CaptureProps | src/Repositories/DynamoDBRepository.cs:70-100 | the pages read end at the first stopping page, every earlier page continued, and with 500-item pages at most limit-1+500 items are collected |
| DynamoRepository.DeleteKey | src/Repositories/DynamoDBRepository.cs:51-58 | an item is deleted under its own key only after it converts, and a conversion failure stops the pass |
| DynamoRepository.DeletePassOf | src/Repositories/DynamoDBRepository.cs:49-63 | the pass deletes the keys of the scanned items in order, up to the first failing item, and all of them when none fails |
| DynamoRepository.DeletePassSticky | src/Repositories/DynamoDBRepository.cs:49-63 | once an item fails, further pages change neither the keys deleted nor the error |
| DynamoRepository.DeleteAllEmptiesTable | src/Repositories/DynamoDBRepository.cs:33-68 | when the scan saw every stored item and none failed, no item is left |
| DynamoRepository.WithoutKeysUnique | src/Repositories/DynamoDBRepository.cs:61 | a delete keeps primary keys unique |
| DynamoRepository.DeleteLoopContinuesAsWritten | src/Repositories/DynamoDBRepository.cs:65 | the loop condition throws on a null cursor, and otherwise continues exactly while the cursor is non-empty |
| DynamoRepository.DeleteOutcomesAgree | src/Repositories/DynamoDBRepository.cs:33-68 | the written and the null-checked loops agree except when the last page has a null cursor, where the written one throws after the same deletes |
| DynamoRepository.NullCursorScanThrowsAfterDeleting | src/Repositories/DynamoDBRepository.cs:65 | one page holding one value with a null cursor: the value is deleted, then the written loop throws, while the checked loop answers one delete |
| DynamoRepository.ConvertPage | src/Repositories/DynamoDBRepository.cs:87-91 | the foreach over a page converts its items and appends them in order, failing on the first bad item |
| DynamoRepository.DynamoDBRepository.constructor | src/Repositories/DynamoDBRepository.cs:16-21 | a repository over an empty table with the given page size |
| DynamoRepository.DynamoDBRepository.InsertValor | src/Repositories/DynamoDBRepository.cs:23-31 | the model accepts every PutItem: the table becomes the old table with the value's item put, and keys stay unique |
| DynamoRepository.DynamoDBRepository.BatchInsertValores | src/Repositories/DynamoDBRepository.cs:102-115 | a batch the model rejects (empty, over 25, or with a repeated key) fails and changes nothing; one it accepts puts every item in order |
| DynamoRepository.DynamoDBRepository.GetValoresComFiltros | src/Repositories/DynamoDBRepository.cs:341-352 | sends the built expression and values, and returns the converted items of one scan page that pass the filter |
| DynamoRepository.DynamoDBRepository.CaptureBatch | src/Repositories/DynamoDBRepository.cs:70-100 | returns the conversion of every item on the pages up to the first stopping page, in order |
| DynamoRepository.DynamoDBRepository.DeletePage | src/Repositories/DynamoDBRepository.cs:49-63 | deletes the page's items one by one, in order, until one fails to convert, and counts the deletes |
| DynamoRepository.DynamoDBRepository.DeleteAllItems | src/Repositories/DynamoDBRepository.cs:33-68 | deletes the keys of the pass over the pages read, then fails with NullReference if the last cursor is null, as written |
| DynamoRepository.DynamoDBRepository.DeleteAllItemsNullChecked | src/Repositories/DynamoDBRepository.cs:33-68 | the same deletes, with a null cursor ending the loop like an empty one, answering the delete count |
| DynamoService.DedupKeyIsPrimaryKey | src/Services/BenchmarkDynamoDbService.cs:33 | the anonymous de-duplication key is equal exactly when the DynamoDB primary key is |
| DynamoService.ListasProps | src/Services/BenchmarkDynamoDbService.cs:67-68 | the Distinct lists hold no repeats and exactly the names and dates of the input |
| DynamoService.AnswersAdmit | src/Services/BenchmarkDynamoDbService.cs:72-78 | every value the read loop collects is admitted by one of the calls made |
| DynamoService.KeyItemSerie | src/Services/BenchmarkDynamoDbService.cs:54 | an item fetched by key belongs to the requested series |
| DynamoService.BenchmarkDynamoDbService.constructor | src/Services/BenchmarkDynamoDbService.cs:10 | the service holds the given repository |
| DynamoService.BenchmarkDynamoDbService.GetBatch | src/Services/BenchmarkDynamoDbService.cs:12-16 | returns what CaptureBatchAsync returns |
| DynamoService.BenchmarkDynamoDbService.Insert | src/Services/BenchmarkDynamoDbService.cs:18-29 | puts every value in order and returns the input |
| DynamoService.BenchmarkDynamoDbService.InsertBatch | src/Services/BenchmarkDynamoDbService.cs:31-44 | keeps the first value per primary key, writes batches of 25, and returns the de-duplicated list |
| DynamoService.BenchmarkDynamoDbService.Ask | src/Services/BenchmarkDynamoDbService.cs:76 | one repository call answers as its specification |
| DynamoService.BenchmarkDynamoDbService.RunEach | src/Services/BenchmarkDynamoDbService.cs:52-55 | a loop over one list concatenates the calls' answers in order |
| DynamoService.BenchmarkDynamoDbService.RunCross | src/Services/BenchmarkDynamoDbService.cs:72-78 | two nested loops concatenate the answers in row-major order |
| DynamoService.BenchmarkDynamoDbService.RunCross3 | src/Services/BenchmarkDynamoDbService.cs:137-147 | three nested loops concatenate the answers in row-major order |
| DynamoService.BenchmarkDynamoDbService.GetItemData | src/Services/BenchmarkDynamoDbService.cs:46-62 | one GetItem per input value, answers in input order |
| DynamoService.BenchmarkDynamoDbService.GetFamiliaData | src/Services/BenchmarkDynamoDbService.cs:64-85 | one family-and-date query per distinct family and date |
| DynamoService.BenchmarkDynamoDbService.GetFiltroFamiliaData | src/Services/BenchmarkDynamoDbService.cs:87-108 | one filtered scan per distinct family and date |
| DynamoService.BenchmarkDynamoDbService.GetFamilia | src/Services/BenchmarkDynamoDbService.cs:110-127 | one family query per distinct family |
| DynamoService.BenchmarkDynamoDbService.GetSerieFamiliaData | src/Services/BenchmarkDynamoDbService.cs:129-154 | one query per distinct date, family and series |
| DynamoService.BenchmarkDynamoDbService.GetFiltroSerieFamiliaData | src/Services/BenchmarkDynamoDbService.cs:156-181 | one filtered scan per distinct date, family and series |
| DynamoService.BenchmarkDynamoDbService.GetSerieFamilia | src/Services/BenchmarkDynamoDbService.cs:183-204 | one query per distinct family and series |
| DynamoService.BenchmarkDynamoDbService.GetFiltroSerieFamilia | src/Services/BenchmarkDynamoDbService.cs:206-227 | one filtered scan per distinct family and series |
| DynamoService.BenchmarkDynamoDbService.GetSerieAtributoData | src/Services/BenchmarkDynamoDbService.cs:229-245 | one series-attribute-date query per input value |
| DynamoService.BenchmarkDynamoDbService.GetItemSerieAtributo | src/Services/BenchmarkDynamoDbService.cs:247-263 | one composite-key query per input value |
| DynamoService.BenchmarkDynamoDbService.GetSerieAtributo | src/Services/BenchmarkDynamoDbService.cs:265-287 | one query per distinct series and attribute |
| DynamoService.BenchmarkDynamoDbService.GetSerieData | src/Services/BenchmarkDynamoDbService.cs:289-310 | one query per distinct date and series |
| DynamoService.BenchmarkDynamoDbService.GetSerie | src/Services/BenchmarkDynamoDbService.cs:312-329 | one series query per distinct series |
| DynamoService.BenchmarkDynamoDbService.GetFiltoFamilia | src/Services/BenchmarkDynamoDbService.cs:331-352 | one filtered scan per distinct date and family |
| DynamoService.BenchmarkDynamoDbService.GetFiltoSerie | src/Services/BenchmarkDynamoDbService.cs:354-375 | one filtered scan per distinct date and series |
| DynamoService.BenchmarkDynamoDbService.GetFiltoSerieAtributoData | src/Services/BenchmarkDynamoDbService.cs:377-395 | one filtered scan per input value |
| DynamoService.BenchmarkDynamoDbService.GetFiltoSerieAtributo | src/Services/BenchmarkDynamoDbService.cs:397-419 | one filtered scan per distinct series and attribute |
| DynamoService.BenchmarkDynamoDbService.GetFiltroItemFamiliaAtributoData | src/Services/BenchmarkDynamoDbService.cs:421-437 | one filtered scan per input value |
| DynamoService.BenchmarkDynamoDbService.GetFiltroFamiliaAtributoData | src/Services/BenchmarkDynamoDbService.cs:439-455 | one filtered scan per input value |
| DynamoService.BenchmarkDynamoDbService.GetFiltroFamiliaAtributo | src/Services/BenchmarkDynamoDbService.cs:457-473 | one filtered scan per input value |
| DynamoService.BenchmarkDynamoDbService.GetFiltoSerieData | src/Services/BenchmarkDynamoDbService.cs:475-493 | one filtered scan per input value |
| DynamoService.BenchmarkDynamoDbService.DeleteAllItens | src/Services/BenchmarkDynamoDbService.cs:549-552 | has the effect and outcome of DeleteAllItemsAsync as written |
| DynamoService.BenchmarkDynamoDbService.CriarDados | src/Services/BenchmarkDynamoDbService.cs:495-530 | the four nested loops build the grid of generated values in family, series, attribute, day order |
| DynamoServiceProps.GetFamiliaDataSound | src/Services/BenchmarkDynamoDbService.cs:64-85 | every value collected has a family and a date from the input lists |
| DynamoServiceProps.GetFiltroFamiliaDataSound | src/Services/BenchmarkDynamoDbService.cs:87-108 | every value collected has a family and a date from the input lists |
| DynamoServiceProps.GetItemDataSound | src/Services/BenchmarkDynamoDbService.cs:46-62 | every value collected has the series of some input value |
| DynamoServiceProps.GetFamiliaSound | src/Services/BenchmarkDynamoDbService.cs:110-127 | every value collected has a family from the input |
| DynamoServiceProps.GetSerieFamiliaDataSound | src/Services/BenchmarkDynamoDbService.cs:129-154 | every value collected has a family, series and date from the input lists |
| DynamoServiceProps.GetFiltroSerieFamiliaDataSound | src/Services/BenchmarkDynamoDbService.cs:156-181 | every value collected has a family, series and date from the input lists |
| DynamoServiceProps.GetSerieFamiliaSound | src/Services/BenchmarkDynamoDbService.cs:183-204 | every value collected has a family and series from the input lists |
| DynamoServiceProps.GetFiltroSerieFamiliaSound | src/Services/BenchmarkDynamoDbService.cs:206-227 | every value collected has a family and series from the input lists |
| DynamoServiceProps.GetSerieAtributoDataSound | src/Services/BenchmarkDynamoDbService.cs:229-245 | every value collected has the series, attribute and date of some input value |
| DynamoServiceProps.GetItemSerieAtributoSound | src/Services/BenchmarkDynamoDbService.cs:247-263 | every value collected has the series of some input value |
| DynamoServiceProps.GetSerieAtributoSound | src/Services/BenchmarkDynamoDbService.cs:265-287 | every value collected has a series and attribute from the input lists |
| DynamoServiceProps.GetSerieDataSound | src/Services/BenchmarkDynamoDbService.cs:289-310 | every value collected has a series and date from the input lists |
| DynamoServiceProps.GetSerieSound | src/Services/BenchmarkDynamoDbService.cs:312-329 | every value collected has a series from the input |
| DynamoServiceProps.GetFiltoFamiliaSound | src/Services/BenchmarkDynamoDbService.cs:331-352 | every value collected has a family and date from the input lists |
| DynamoServiceProps.GetFiltoSerieSound | src/Services/BenchmarkDynamoDbService.cs:354-375 | every value collected has a series and date from the input lists |
| DynamoServiceProps.GetFiltoSerieAtributoDataSound | src/Services/BenchmarkDynamoDbService.cs:377-395 | every value collected satisfies the filter built from some input value |
| DynamoServiceProps.GetFiltoSerieAtributoSound | src/Services/BenchmarkDynamoDbService.cs:397-419 | every value collected has a series and attribute from the input lists |
| DynamoServiceProps.GetFiltroItemFamiliaAtributoDataSound | src/Services/BenchmarkDynamoDbService.cs:421-437 | every value collected satisfies the filter built from some input value |
| DynamoServiceProps.GetFiltroFamiliaAtributoDataSound | src/Services/BenchmarkDynamoDbService.cs:439-455 | every value collected satisfies the filter built from some input value |
| DynamoServiceProps.GetFiltroFamiliaAtributoSound | src/Services/BenchmarkDynamoDbService.cs:457-473 | every value collected satisfies the filter built from some input value |
| DynamoServiceProps.GetFiltoSerieDataSound | src/Services/BenchmarkDynamoDbService.cs:475-493 | every value collected satisfies the filter built from some input value |
| DynamoServiceProps.QueryReturnsStored | src/Repositories/DynamoDBRepository.cs:151-153 | a stored value the query selects is returned when the matches fit in a page |
| DynamoServiceProps.ScanReturnsStored | src/Repositories/DynamoDBRepository.cs:350-351 | a stored value the filter admits is returned when the table fits in a page |
| DynamoServiceProps.QueryPicks | src/Repositories/DynamoDBRepository.cs:133-334 | each named query selects a written value if and only if the value's fields meet the call's arguments |
| DynamoServiceProps.KeyReturnsStored | src/Repositories/DynamoDBRepository.cs:117-131 | in a table with unique keys, GetItem under a stored value's series and composite key returns that value, to the second |
| DynamoServiceProps.AnswerComplete | src/Services/BenchmarkDynamoDbService.cs:52-55 | when the table fits in a page, a call answers with every written value it picks |
| DynamoServiceProps.AnswersComplete | src/Services/BenchmarkDynamoDbService.cs:72-78 | a read loop's list holds every written value that one of its calls picks, when the table fits in a page |
| DynamoServiceProps.EachComplete | src/Services/BenchmarkDynamoDbService.cs:52-55 | a loop over one list collects every written value the call on some element picks |
| DynamoServiceProps.CrossComplete | src/Services/BenchmarkDynamoDbService.cs:72-78 | two nested loops collect every written value the call on some pair picks |
| DynamoServiceProps.Cross3Complete | src/Services/BenchmarkDynamoDbService.cs:137-147 | three nested loops collect every written value the call on some triple picks |
| DynamoServiceProps.GetFamiliaDataComplete | src/Services/BenchmarkDynamoDbService.cs:64-85 | every stored value whose family and date are in the lists is collected, to the second, when the table fits in a page |
| DynamoServiceProps.GetFiltroFamiliaDataComplete | src/Services/BenchmarkDynamoDbService.cs:87-108 | every stored value whose family and date are in the lists is collected, to the second, when the table fits in a page |
| DynamoServiceProps.GetItemDataComplete | src/Services/BenchmarkDynamoDbService.cs:46-62 | every stored value with the series, attribute and date of an input value (the table's keys being unique) is collected, to the second, when the table fits in a page |
| DynamoServiceProps.GetFamiliaComplete | src/Services/BenchmarkDynamoDbService.cs:110-127 | every stored value whose family is in the list is collected, to the second, when the table fits in a page |
| DynamoServiceProps.GetSerieFamiliaDataComplete | src/Services/BenchmarkDynamoDbService.cs:129-154 | every stored value whose date, family and series are in the lists is collected, to the second, when the table fits in a page |
| DynamoServiceProps.GetFiltroSerieFamiliaDataComplete | src/Services/BenchmarkDynamoDbService.cs:156-181 | every stored value whose date, family and series are in the lists is collected, to the second, when the table fits in a page |
| DynamoServiceProps.GetSerieFamiliaComplete | src/Services/BenchmarkDynamoDbService.cs:183-204 | every stored value whose family and series are in the lists is collected, to the second, when the table fits in a page |
| DynamoServiceProps.GetFiltroSerieFamiliaComplete | src/Services/BenchmarkDynamoDbService.cs:206-227 | every stored value whose family and series are in the lists is collected, to the second, when the table fits in a page |
| DynamoServiceProps.GetSerieAtributoDataComplete | src/Services/BenchmarkDynamoDbService.cs:229-245 | every stored value with the series, attribute and date of an input value is collected, to the second, when the table fits in a page |
| DynamoServiceProps.GetItemSerieAtributoComplete | src/Services/BenchmarkDynamoDbService.cs:247-263 | every stored value with the series, attribute and date of an input value is collected, to the second, when the table fits in a page |
| DynamoServiceProps.GetSerieAtributoComplete | src/Services/BenchmarkDynamoDbService.cs:265-287 | every stored value whose series and attribute are in the lists is collected, to the second, when the table fits in a page |
| DynamoServiceProps.GetSerieDataComplete | src/Services/BenchmarkDynamoDbService.cs:289-310 | every stored value whose date and series are in the lists is collected, to the second, when the table fits in a page |
| DynamoServiceProps.GetSerieComplete | src/Services/BenchmarkDynamoDbService.cs:312-329 | every stored value whose series is in the list is collected, to the second, when the table fits in a page |
| DynamoServiceProps.GetFiltoFamiliaComplete | src/Services/BenchmarkDynamoDbService.cs:331-352 | every stored value whose date and family are in the lists is collected, to the second, when the table fits in a page |
| DynamoServiceProps.GetFiltoSerieComplete | src/Services/BenchmarkDynamoDbService.cs:354-375 | every stored value whose date and series are in the lists is collected, to the second, when the table fits in a page |
| DynamoServiceProps.GetFiltoSerieAtributoDataComplete | src/Services/BenchmarkDynamoDbService.cs:377-395 | every stored value with the series, attribute and date of an input value is collected, to the second, when the table fits in a page |
| DynamoServiceProps.GetFiltoSerieAtributoComplete | src/Services/BenchmarkDynamoDbService.cs:397-419 | every stored value whose series and attribute are in the lists is collected, to the second, when the table fits in a page |
| DynamoServiceProps.GetFiltroItemFamiliaAtributoDataComplete | src/Services/BenchmarkDynamoDbService.cs:421-437 | every stored value with the family, attribute and date of an input value is collected, to the second, when the table fits in a page |
| DynamoServiceProps.GetFiltroFamiliaAtributoDataComplete | src/Services/BenchmarkDynamoDbService.cs:439-455 | every stored value with the family, attribute and date of an input value is collected, to the second, when the table fits in a page |
| DynamoServiceProps.GetFiltroFamiliaAtributoComplete | src/Services/BenchmarkDynamoDbService.cs:457-473 | every stored value with the family and attribute of an input value is collected, to the second, when the table fits in a page |
| DynamoServiceProps.GetFiltoSerieDataComplete | src/Services/BenchmarkDynamoDbService.cs:475-493 | every stored value with the series, attribute and date of an input value is collected, to the second, when the table fits in a page |
| DynamoServiceProps.GetItemDataAfterWrite | src/Services/BenchmarkDynamoDbService.cs:46-62 | after writing values with distinct keys, GetItemData returns them in order, to the second |
| DynamoServiceProps.AnswerByKey | src/Repositories/DynamoDBRepository.cs:117-131 | a successful GetItem call answers the one fetched value |
| DynamoServiceProps.BatchKeysUnique | src/Services/BenchmarkDynamoDbService.cs:33-34 | values with distinct primary keys give a batch with distinct keys |
| DynamoServiceProps.KeyItemAfterPutAll | src/Repositories/DynamoDBRepository.cs:102-131 | after a batch with distinct keys, each value is fetched back by its key |
| DynamoServiceProps.InsertBatchThenGetItemData | src/Services/BenchmarkDynamoDbService.cs:31-62 | InsertBatch followed by GetItemData on the kept values returns them, to the second |
| DynamoServiceProps.DadosSize | src/Services/BenchmarkDynamoDbService.cs:495-530 | CriarDados returns qtdFamilia*qtdSerie*qtdAtributo*qtdDias values (none for a non-positive count) |
| DynamoServiceProps.DadosAt | src/Services/BenchmarkDynamoDbService.cs:500-523 | the value at the row-major position of (i, j, k, d) is the one generated for those loop indices |
| DynamoServiceProps.GeradoDates | src/Services/BenchmarkDynamoDbService.cs:509-521 | the d-th day's value starts and ends d+1 days before the date read for its attribute loop, and carries its family, file, series and generated fields |
| DynamoServiceProps.DadosMembers | src/Services/BenchmarkDynamoDbService.cs:495-530 | every generated value was generated for some loop indices within the counts |
| PostgresFilters.WhereClauseEmptyIff | src/Repositories/PostgreSQLRepository.cs:198 | the WHERE clause is empty exactly when there are no conditions, and otherwise starts with "WHERE " |
| PostgresFilters.BuildFiltros | src/Repositories/PostgreSQLRepository.cs:174-198 | conditions and parameters are built in lockstep from the given filter arguments, and the clause joins them |
| PostgresFilters.ClausesProps | src/Repositories/PostgreSQLRepository.cs:177-196 | clauses follow column order, and a column is present exactly when its argument is given (non-blank, or has a value) |
| PostgresFilters.FiltrosLockstep | src/Repositories/PostgreSQLRepository.cs:177-196 | the i-th condition and the i-th parameter name the same column and placeholder |
| PostgresFilters.FiltrosEmptyIff | src/Repositories/PostgreSQLRepository.cs:198 | there is no WHERE clause exactly when no argument is given |
| PostgresFilters.RowMatchesIff | src/Repositories/PostgreSQLRepository.cs:177-199 | a row matches the built conditions if and only if it satisfies every given argument |
| PostgresFilters.NarrowerFilterSelectsFewer | src/Repositories/PostgreSQLRepository.cs:177-196 | giving more arguments never selects more rows |
| PostgresFilters.BuildJoinFiltros | src/Repositories/PostgreSQLRepository.cs:231-255 | the join query's aliased conditions and parameters are built in lockstep from the given codes |
| PostgresFilters.JoinClausesProps | src/Repositories/PostgreSQLRepository.cs:234-253 | the join clauses follow column order, and a column is present exactly when its code is given |
| PostgresRepository.InsertIfAbsent | src/Repositories/PostgreSQLRepository.cs:24 | ON CONFLICT DO NOTHING adds the row only for a new name, and keeps every other row |
| PostgresRepository.InsertIfAbsentIdempotent | src/Repositories/PostgreSQLRepository.cs:24 | inserting a name a second time changes nothing |
| PostgresRepository.Lookup | src/Repositories/PostgreSQLRepository.cs:77 | a row with a conflict key is found if and only if one is stored |
| PostgresRepository.UpsertSpec | src/Repositories/PostgreSQLRepository.cs:77 | an upsert keeps conflict keys unique, updates only Valor and DataAtualizacao of a conflicting row or adds the row, and leaves other keys unchanged |
| PostgresRepository.UpsertAllSpec | src/Repositories/PostgreSQLRepository.cs:89-100 | after a run of upserts, keys stay unique and a key is present if and only if it was stored before or some value of the list has it |
| PostgresRepository.SameStartDifferentInstants | src/Repositories/PostgreSQLRepository.cs:77 | two writes for the same series, attribute and start date with different instants give two rows |
| PostgresRepository.LastWriteWins | src/Repositories/PostgreSQLRepository.cs:77 | the last write to a conflict key sets the stored amount |
| PostgresRepository.DifferentStartsCollide | src/Repositories/PostgreSQLRepository.cs:77 | two writes with the same series, attribute and instant but different start dates collide, and the second only changes the amount |
| PostgresRepository.FindValor | src/Repositories/PostgreSQLRepository.cs:128-156 | a row is returned exactly when one has the series, attribute and start date, and it is the first such row in the row order the model fixes |
| PostgresRepository.SelectedSpec | src/Repositories/PostgreSQLRepository.cs:169-224 | the filtered select returns exactly the stored rows that satisfy the filter, and all rows when no argument is given |
| PostgresRepository.FindValorIsFirstSelected | src/Repositories/PostgreSQLRepository.cs:128-224 | GetValorAsync answers the first row of the filtered select by series, attribute and date, both read in the same row order |
| PostgresRepository.UnquotedNeverResolves | src/Repositories/PostgreSQLRepository.cs:163 | no unquoted identifier resolves to a table of the catalog, and each quoted catalog name resolves |
| PostgresRepository.PostgreSQLRepository.constructor | src/Repositories/PostgreSQLRepository.cs:13-17 | all tables empty and nothing executed |
| PostgresRepository.PostgreSQLRepository.InsertArquivo | src/Repositories/PostgreSQLRepository.cs:19-30 | the file is added unless its name exists, and other tables are unchanged |
| PostgresRepository.PostgreSQLRepository.InsertFamilia | src/Repositories/PostgreSQLRepository.cs:32-43 | the family is added unless its name exists, and other tables are unchanged |
| PostgresRepository.PostgreSQLRepository.InsertSerie | src/Repositories/PostgreSQLRepository.cs:45-56 | the series is added unless its name exists, and other tables are unchanged |
| PostgresRepository.PostgreSQLRepository.InsertAtributo | src/Repositories/PostgreSQLRepository.cs:58-69 | the attribute is added unless its name exists, and other tables are unchanged |
| PostgresRepository.PostgreSQLRepository.ExecuteUpsert | src/Repositories/PostgreSQLRepository.cs:91-99 | one upsert on the conflict key, logged |
| PostgresRepository.PostgreSQLRepository.BatchInsertValores | src/Repositories/PostgreSQLRepository.cs:71-101 | the list's upserts are executed one per row, in order |
| PostgresRepository.PostgreSQLRepository.GetValor | src/Repositories/PostgreSQLRepository.cs:128-156 | answers the first row with the series, attribute and start date in the model's row order, or null |
| PostgresRepository.PostgreSQLRepository.GetValoresComFiltros | src/Repositories/PostgreSQLRepository.cs:169-224 | sends the select with the built WHERE clause and parameters, and returns the rows satisfying the filter |
| PostgresRepository.PostgreSQLRepository.Truncate | src/Repositories/PostgreSQLRepository.cs:158-167 | TRUNCATE empties the table the identifier resolves to, or fails with undefined_table and changes nothing |
| PostgresRepository.PostgreSQLRepository.DeleteAllAsWritten | src/Repositories/PostgreSQLRepository.cs:158-167 | TRUNCATE TABLE valor fails with undefined_table "valor" and leaves every table unchanged |
| PostgresRepository.PostgreSQLRepository.DeleteAll | src/Repositories/PostgreSQLRepository.cs:158-167 | truncating the quoted "Valor" empties it and leaves the reference tables unchanged |
| PostgresService.BenchmarkPostgresService.constructor | src/Services/BenchmarkPostgresService.cs:10 | the service holds the given repository |
| PostgresService.BenchmarkPostgresService.Insert | src/Services/BenchmarkPostgresService.cs:12-43 | inserts the distinct files, families, series and attributes, then upserts every value in input order |
| PostgresService.InsertAllIfAbsentSpec | src/Repositories/PostgreSQLRepository.cs:19-69 | a run of ON CONFLICT DO NOTHING inserts keeps every stored row, adds exactly the listed names, and each new name holds the first listed row carrying it |
| PostgresService.InsertDistinctSpec | src/Services/BenchmarkPostgresService.cs:16-19 | inserting a list deduplicated by name gives each new name the first row of the whole list carrying it |
| PostgresServiceProps.InsertReferenceTables | src/Services/BenchmarkPostgresService.cs:12-40 | after Insert, each reference table keeps its rows and every new file, family, series or attribute name holds the entity of the first aggregate carrying it |
| PostgresService.BenchmarkPostgresService.InsertArquivos | src/Services/BenchmarkPostgresService.cs:21-24 | one insert per distinct file |
| PostgresService.BenchmarkPostgresService.InsertFamilias | src/Services/BenchmarkPostgresService.cs:25-28 | one insert per distinct family |
| PostgresService.BenchmarkPostgresService.InsertSeries | src/Services/BenchmarkPostgresService.cs:29-32 | one insert per distinct series |
| PostgresService.BenchmarkPostgresService.InsertAtributos | src/Services/BenchmarkPostgresService.cs:33-36 | one insert per distinct attribute |
| PostgresService.BenchmarkPostgresService.InsertValores | src/Services/BenchmarkPostgresService.cs:37-40 | one single-row upsert per aggregate, in order |
| PostgresService.BenchmarkPostgresService.InsertValor | src/Services/BenchmarkPostgresService.cs:39 | the batch insert of a one-element list is one upsert |
| PostgresService.BenchmarkPostgresService.Ask | src/Services/BenchmarkPostgresService.cs:70-73 | one repository call answers as its specification |
| PostgresService.BenchmarkPostgresService.RunEach | src/Services/BenchmarkPostgresService.cs:67-74 | a loop over one list concatenates the answers in order |
| PostgresService.BenchmarkPostgresService.RunCross | src/Services/BenchmarkPostgresService.cs:105-130 | two nested loops concatenate the answers in row-major order |
| PostgresService.BenchmarkPostgresService.RunCross3 | src/Services/BenchmarkPostgresService.cs:186-215 | three nested loops concatenate the answers in row-major order |
| PostgresService.BenchmarkPostgresService.GetSerieItemSerieAtributoData | src/Services/BenchmarkPostgresService.cs:61-81 | one GetValorAsync per aggregate, keeping the non-null answers |
| PostgresService.BenchmarkPostgresService.GetSerieAtributoData | src/Services/BenchmarkPostgresService.cs:83-103 | one filtered select by series, attribute and date per aggregate |
| PostgresService.BenchmarkPostgresService.GetSerieData | src/Services/BenchmarkPostgresService.cs:105-130 | one filtered select per distinct series and date |
| PostgresService.BenchmarkPostgresService.GetAtributoData | src/Services/BenchmarkPostgresService.cs:132-157 | one filtered select per distinct attribute and date |
| PostgresService.BenchmarkPostgresService.GetFamiliaData | src/Services/BenchmarkPostgresService.cs:159-184 | one filtered select per distinct family and date |
| PostgresService.BenchmarkPostgresService.GetFamiliaAtributoData | src/Services/BenchmarkPostgresService.cs:186-215 | one filtered select per distinct family, attribute and date |
| PostgresService.BenchmarkPostgresService.GetFamiliaSerieAtributoData | src/Services/BenchmarkPostgresService.cs:217-241 | one filtered select by family, series, attribute and date per aggregate |
| PostgresService.BenchmarkPostgresService.DeleteAllItens | src/Services/BenchmarkPostgresService.cs:332-335 | calls DeleteAllAsync as written: fails with undefined_table and changes nothing |
| PostgresService.BenchmarkPostgresService.CriarDados | src/Services/BenchmarkPostgresService.cs:243-313 | the four nested loops build the grid of generated aggregates in family, series, attribute, day order |
| PostgresServiceProps.AnswerSpec | src/Services/BenchmarkPostgresService.cs:70-73 | a call answers only stored rows it admits; a filtered call answers all of them; a key call answers at most one, and one exactly when an admitted row exists |
| PostgresServiceProps.AnswersMembers | src/Services/BenchmarkPostgresService.cs:67-74 | a value is collected if and only if some call answers it |
| PostgresServiceProps.AnswersSound | src/Services/BenchmarkPostgresService.cs:67-74 | every value collected is stored and admitted by one of the calls made |
| PostgresServiceProps.AnswersComplete | src/Services/BenchmarkPostgresService.cs:105-130 | a stored row admitted by a filtered call that is made is collected |
| PostgresServiceProps.GetSerieItemSerieAtributoDataCount | src/Services/BenchmarkPostgresService.cs:61-81 | at most one row per aggregate is collected, and one per aggregate exactly when every aggregate's key is stored |
| PostgresServiceProps.GetSerieItemSerieAtributoDataSound | src/Services/BenchmarkPostgresService.cs:61-81 | every row collected is stored and has the series, attribute and start date of some aggregate |
| PostgresServiceProps.GetSerieAtributoDataSpec | src/Services/BenchmarkPostgresService.cs:83-103 | a row is collected if and only if it is stored and matches some aggregate's series, attribute and date, with blank names matching all |
| PostgresServiceProps.GetFamiliaSerieAtributoDataSpec | src/Services/BenchmarkPostgresService.cs:217-241 | a row is collected if and only if it is stored and matches some aggregate's family, series, attribute and date, with blank names matching all |
| PostgresServiceProps.CrossSound | src/Services/BenchmarkPostgresService.cs:105-130 | every row collected by two nested loops is admitted by a call on some pair of the lists |
| PostgresServiceProps.Cross3Sound | src/Services/BenchmarkPostgresService.cs:186-215 | every row collected by three nested loops is admitted by a call on some triple of the lists |
| PostgresServiceProps.CrossComplete | src/Services/BenchmarkPostgresService.cs:105-130 | a stored row admitted by the call on some pair of the lists is collected |
| PostgresServiceProps.Cross3Complete | src/Services/BenchmarkPostgresService.cs:186-215 | a stored row admitted by the call on some triple of the lists is collected |
| PostgresServiceProps.GetSerieDataSpec | src/Services/BenchmarkPostgresService.cs:105-130 | rows collected are stored, dated from the list, with a series from the list or blank; every stored row with a listed series and date is collected |
| PostgresServiceProps.GetAtributoDataSpec | src/Services/BenchmarkPostgresService.cs:132-157 | rows collected are stored, dated from the list, with an attribute from the list or blank; every stored row with a listed attribute and date is collected |
| PostgresServiceProps.GetFamiliaDataSpec | src/Services/BenchmarkPostgresService.cs:159-184 | rows collected are stored, dated from the list, with a family from the list or blank; every stored row with a listed family and date is collected |
| PostgresServiceProps.GetFamiliaAtributoDataSpec | src/Services/BenchmarkPostgresService.cs:186-215 | rows collected are stored and match a listed family, attribute and date (blank names matching all); every stored row with listed ones is collected |
| PostgresServiceProps.ReadLoopCalls | src/Services/BenchmarkPostgresService.cs:105-215 | the nested loops make one call per pair or triple of the distinct lists |
| PostgresServiceProps.DadosSize | src/Services/BenchmarkPostgresService.cs:243-313 | CriarDados returns qtdFamilia*qtdSerie*qtdAtributo*qtdDias aggregates (none for a non-positive count) |
| PostgresServiceProps.DadosAt | src/Services/BenchmarkPostgresService.cs:248-306 | the aggregate at the row-major position of (i, j, k, d) is the one generated for those loop indices |
| PostgresServiceProps.GeradoDates | src/Services/BenchmarkPostgresService.cs:284-304 | the d-th day's value starts and ends d+1 days before today, and names its own file, family, series and attribute, whose internal names equal their names |
| PostgresServiceProps.DadosMembers | src/Services/BenchmarkPostgresService.cs:243-313 | every generated aggregate was generated for some loop indices within the counts and is coherent |
| Sequences.DistinctByProps | src/Services/BenchmarkDynamoDbService.cs:33 | DistinctBy keeps one element per key, covers every key of the input, and only keeps input elements |
| Sequences.DistinctByIsFirstOccurrences | src/Services/BenchmarkDynamoDbService.cs:33 | DistinctBy keeps exactly the first occurrence of each key, in input order |
| Sequences.DistinctByIdempotent | src/Services/BenchmarkPostgresService.cs:16-19 | applying DistinctBy twice equals applying it once |
| Sequences.DistinctProps | src/Services/BenchmarkDynamoDbService.cs:67-68 | Distinct has no repeats and the same members as its input |
| Sequences.ChunkProps | src/Services/BenchmarkDynamoDbService.cs:34 | Chunk(25) flattens back to the input, has ceil(n/25) chunks of 1 to 25 elements, and all but the last are full |
| Sequences.ChunkFlatten | src/Services/BenchmarkDynamoDbService.cs:34 | the chunks concatenate back to the input |
| Sequences.CrossLength | src/Services/BenchmarkDynamoDbService.cs:72-78 | two nested loops make |xs|*|ys| calls |
| Sequences.Cross3Length | src/Services/BenchmarkDynamoDbService.cs:137-147 | three nested loops make |xs|*|ys|*|zs| calls |
| Sequences.Grid4Size | src/Services/BenchmarkDynamoDbService.cs:500-527 | four nested loops yield nf*ns*na*nd elements |
| Sequences.Grid4At | src/Services/BenchmarkDynamoDbService.cs:500-527 | the element at the row-major position of (i, j, k, d) is g(i, j, k, d) |
| Sequences.Grid4Members | src/Services/BenchmarkDynamoDbService.cs:500-527 | every element of the grid is g of indices within the bounds |
| Sequences.WhereProps | src/Repositories/PostgreSQLRepository.cs:209-222 | a filter keeps exactly the input elements satisfying the predicate, and no more of them |
| Wrappers.MapResultProps | src/Repositories/DynamoDBRepository.cs:152 | converting a list succeeds exactly when every element converts, and then element-wise |

## Left out

- The database clients, the network, `async`/`await`, `Stopwatch` timing and console output
  (`ImprimirResultado`, the delete count message) are not modelled. The repositories own their
  tables as state, and a scan's responses are a parameter.
- Faker and `DateTime.UtcNow` are parameters of `CriarDados`, given as functions of the loop
  indices (family i, series j, attribute k, day d). Faker draws the family and file names and
  descriptions per i, the series name and description per (i, j), the Postgres attribute name and
  description per (i, j, k), the DynamoDB attribute name per (i, j, k, d), and each amount per
  (i, j, k, d). `DateTime.UtcNow` is read once per attribute loop, (i, j, k), for the starting
  date, and again per value, (i, j, k, d), for `DataAtualizacao`.
- `GetRandomItemsAsync` and `GetSerieItensRandomList` are not modelled, because they draw
  random rows.
- `GetValoresComJoinsAsync`: only its WHERE builder is modelled. The joined SQL text and the
  rows of the join are not.
- Floating point is not modelled. PostgreSQL's `double` amount is an opaque number, and
  `decimal` is an unbounded mantissa with a scale.
- Decimals: the 96-bit mantissa and the scale of at most 28 are not modelled, nor are parse
  overflow and rounding.
- DynamoItems.ConvertRoundTrip: the DateTime Kind is dropped. `DateTime.Parse` yields an
  Unspecified instant where the writer had a Utc one. Sub-second ticks are dropped by the
  `yyyy-MM-ddTHH:mm:ss` format, and the round trip states this.
- DynamoItems.ConvertToItem: a null `NomeArquivo` is written as an attribute with neither
  S nor N. DynamoDB rejects such an attribute, but the model stores it.
- DynamoItems.Attribute: a name attribute without an S value reads as an error
  (`NullValue`), where the source reads it as a null string and goes on.
- DynamoItems: the current culture's calendar in the `yyyyMMdd` writes and in the
  `yyyy-MM-ddTHH:mm:ss` timestamp is not modelled, nor is the culture's time separator that
  the timestamp's `:` stands for. The dates are Gregorian and the separator is `:`;
  DynamoItems.ConvertRoundTrip ranges only over the number separators of a culture.
- DynamoTable.QueryItems: results come in table (insertion) order, not ordered by the index
  sort key as `ScanIndexForward = true` asks. Which matches land on the first page when they
  exceed it differs accordingly.
- DynamoTable.Page: the 1 MB response limit is modelled as an item count per page.
- DynamoRepository.BatchAcceptedIff: the model's acceptance test covers only the batch size and
  repeated keys. DynamoDB also refuses a request with a ValidationException when an item has an
  empty string in a key attribute (`NomeSerie`, `NomeAtributoDataInicioVigencia`, or an index key
  such as `NomeFamilia`), a partition key over 2048 bytes, a sort key over 1024 bytes, or a size
  over 400 KB. DynamoRepository.DynamoDBRepository.BatchInsertValores and
  DynamoRepository.DynamoDBRepository.InsertValor store such items, where DynamoDB would throw
  and store nothing, and the read-back lemmas then hold for items DynamoDB never stores.
- DynamoRepository.DynamoDBRepository.BatchInsertValores: the `UnprocessedItems` of the
  response are not modelled. An accepted batch applies every put, so
  DynamoServiceProps.InsertBatchThenGetItemData holds only when DynamoDB processes the whole
  batch.
- DynamoFilters.NoFilterKeepsAll: with no argument the source sends an empty
  `FilterExpression`, which DynamoDB rejects. The model keeps every item.
- DynamoRepository: the repository reads amounts with the invariant culture
  (`ConvertFromItemInvariant`), where the source's `decimal.Parse` uses the current culture.
  The current-culture read is modelled as `ConvertFromItem` with a culture parameter (see
  Findings).
- DynamoService: the service calls five query overloads that `IDynamoDBRepository.cs` does
  not declare (BenchmarkDynamoDbService.cs lines 119, 195, 255, 278 and 321). The service is
  modelled against the concrete repository.
- PostgresRepository.FindValor: neither SELECT has an `ORDER BY`, so PostgreSQL returns rows
  in no promised order, and `ON CONFLICT DO UPDATE` writes a new row version. The model fixes
  one order, insertion order with an updated row kept in its place. When several rows share the
  series, attribute and start date (PostgresRepository.SameStartDifferentInstants), GetValorAsync
  may answer any of them, where the model answers the first. The same holds for the order of
  PostgresRepository.Selected and of the read loops' results.
- PostgresRepository.UpsertSpec: the schema of "Valor" is not in the source. The model assumes
  only the unique index on the conflict target, with no other key and no foreign key. A
  primary key on other columns (`ValorPostgres.cs` marks six as `[Key]`) would make the second
  write of PostgresRepository.SameStartDifferentInstants fail with unique_violation, and foreign
  keys would reject a value whose family, file, series or attribute is not stored.
- DynamoRepository.KeyItem: a client that leaves `response.Item` null for a missing key makes
  `ConvertFromDynamoDBItem` fail with a null reference instead of a missing key; either way the
  read fails.
- PostgresRepository.Upsert: the `double` amount is bound as a `Numeric` parameter
  (PostgreSQLRepository.cs line 84), so it passes through `decimal` and keeps at most 15
  significant digits before `GetDouble` reads it back. `DataAtualizacao` is stored as
  `timestamptz` and read back at microsecond precision. The model stores the written record and
  FindValor and Selected return it unchanged, so a row read back can differ from the row written
  in these two fields where the model says it does not.
- PostgresRepository.ConflictKey: `timestamptz` keeps microseconds while the model keeps
  100 ns ticks. Two writes within one microsecond collide in PostgreSQL but not in the model.
- DynamoService.BenchmarkDynamoDbService.CriarDados: requires every generated date to stay
  after 0001-01-01, which excludes the inputs where `AddDays(-1)` throws. The same holds for
  PostgresService.BenchmarkPostgresService.CriarDados.
- Dependency injection, configuration, `Program.cs` and the test classes are not part of
  this model.

## Findings

| source | as written | input that shows it | evidently intended | confidence | as-written member | corrected member |
|---|---|---|---|---|---|---|
| src/Repositories/DynamoDBRepository.cs:65 | the loop condition `lastEvaluatedKey.Count > 0` dereferences the cursor with no null check | one scan page holding one stored value, whose `LastEvaluatedKey` is null: the value is deleted, then NullReferenceException | a null cursor ends the loop, as the check at line 93 does | not executed; depends on whether the SDK returns a null `LastEvaluatedKey` | DynamoRepository.DynamoDBRepository.DeleteAllItems, DynamoRepository.NullCursorScanThrowsAfterDeleting | DynamoRepository.DynamoDBRepository.DeleteAllItemsNullChecked |
| src/Repositories/PostgreSQLRepository.cs:163 | `TRUNCATE TABLE valor` names the table unquoted, so PostgreSQL folds it to `valor`, while the table was created as the quoted `"Valor"` | any call of `DeleteAllAsync`: undefined_table "valor" and nothing deleted | `TRUNCATE TABLE "Valor"` empties the values table | not executed | PostgresRepository.PostgreSQLRepository.DeleteAllAsWritten, PostgresRepository.UnquotedNeverResolves | PostgresRepository.PostgreSQLRepository.DeleteAll |
| src/Repositories/DynamoDBRepository.cs:378 | `decimal.Parse` reads the amount with the current culture, while line 363 writes it with the invariant culture | a stored 12.5 read under pt-BR gives 125, and under fr-FR it throws | parse with `CultureInfo.InvariantCulture`, so write then read is the identity | not executed | DynamoItems.CurrentCultureMisreadsAmount, Decimals.BrazilianCultureMisreadsAmount | DynamoItems.ConvertRoundTripInvariant |
