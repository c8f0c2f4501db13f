# Duplicate lot/serial scan for Odoo, modelled in Dafny

`chk-odoo-dups.py` logs into an Odoo server over XML-RPC with an API key kept
GPG-encrypted on disk. It then fetches the stock quants that carry a lot/serial
number at two named locations and prints every quant whose lot id is carried by more
than one of those quants. This project models the logic of that script:

- the grouping of the fetched quants by lot id into an insertion-ordered dictionary
  (`LotGrouping`, method `GroupByLot`);
- the walk over that dictionary that builds one report row per quant of every lot
  holding more than one quant (`DuplicateReport`, methods `SelectDuplicates` and
  `FindDuplicates`), and the "No duplicates found." / "found" branch (`Conclude`);
- the first-match rule of `get_location_id` and the truthiness test on both ids
  (`Locations`);
- the acceptance rule for the decrypted API key: Python's `str.strip()` followed by the
  empty check (`ApiKey`);
- the run from the location lookups to the conclusion (`Scan.ScanLocations`).

Remote reads are inputs. The quant search result is a `seq<Quant>`. The location
search results are `seq<LocationRecord>`. The `product.product`, `stock.lot` and
`stock.location` reads are the three function fields of a `Remote` value. GPG
decryption is a `Decryption(ok, text)` value. The error exits of `get_api_key`
(chk-odoo-dups.py:66, 73, 79) and of the location check (chk-odoo-dups.py:125) are
`Failure`s of a `Result`.

What is proved, beyond each method meeting its specification function:

- Every quant lies in exactly one group, the one of its own lot. Groups keep input
  order. Group sizes sum to the number of quants.
- The dictionary's keys are the distinct lot ids, each once, ordered by first
  appearance (`FirstIndex`, the least index carrying the lot, is defined on its own).
- A quant is reported if and only if another quant shares its lot. Each quant is
  reported at most once. Rows are ordered by lot first appearance, then by input order.
- Each row carries its quant's quantity unchanged. Its lot name is read for that
  quant's lot id, and its location name for that quant's own location id.
- Rows plus lots seen exactly once equal the number of quants.
- "No duplicates found." is printed exactly when all lot ids are distinct.

The code reports a lot whenever it holds more than one quant. This happens even when
all of those quants sit at the same location: the script never compares locations.

## Model

| member | source | states |
|---|---|---|
| `LotGrouping.GroupByLot` | chk-odoo-dups.py:133-138 | the dictionary built by the loop has exactly the lots of the input as keys, in first-seen order, and under each key the quants of that lot in input order |
| `LotGrouping.FirstIndex` | chk-odoo-dups.py:136-137 | the position where a lot first appears: it carries the lot, and no earlier position does; the input length when no quant carries it |
| `LotGrouping.PositionsOfLot` | chk-odoo-dups.py:134-138 | a lot's positions are strictly increasing, and a position belongs to them if and only if its quant carries that lot; so each quant is in exactly one group |
| `LotGrouping.GroupAtPositions` | chk-odoo-dups.py:136-138 | a lot's group lists, in order, the quants at that lot's positions: appending keeps input order |
| `LotGrouping.GroupEmptyIffAbsent` | chk-odoo-dups.py:136-137 | a lot's group is empty if and only if no quant carries the lot |
| `LotGrouping.LotOrderIsFirstAppearance` | chk-odoo-dups.py:136-137 | the keys are distinct, a lot is a key if and only if some quant carries it, and keys are ordered by first appearance |
| `LotGrouping.GroupSizesSumToInput` | chk-odoo-dups.py:134-138 | the sizes of all groups sum to the number of fetched quants |
| `LotGrouping.TotalSizeAfterAppend` | chk-odoo-dups.py:138 | appending one quant adds one to the total size over distinct keys that name its lot, and nothing otherwise |
| `DuplicateReport.MakeRow` | chk-odoo-dups.py:146-156 | the row for one move: its product's name and `default_code` answer (`""` when the key is missing, `False` kept as is), the name read for the lot being visited, the name read for the move's own location, and the move's quantity unchanged |
| `DuplicateReport.GroupRows` | chk-odoo-dups.py:145-156 | the inner loop gives one row per move of the group, in the group's order |
| `DuplicateReport.AppendGroupRows` | chk-odoo-dups.py:145-156 | the inner loop appends to the rows so far exactly the group's rows, one per move, in the group's order |
| `DuplicateReport.SelectDuplicates` | chk-odoo-dups.py:140-156 | the nested loops append, key by key in insertion order, the rows of every group with more than one move, and nothing for the other groups |
| `DuplicateReport.FindDuplicates` | chk-odoo-dups.py:133-156 | one row per reported position, carrying that quant's quantity, its own lot's name, its own location's name, its product's name, and its product's `default_code` answer unchanged (a string, or `False` for an unset code; `""` only when the answer has no such key) |
| `DuplicateReport.Conclude` | chk-odoo-dups.py:159-164 | "No duplicates found." exactly when the row list is empty, otherwise the found branch with the rows |
| `DuplicateReport.DictRowsAtPositions` | chk-odoo-dups.py:143-156 | the rows built from the grouped quants are, one for one, the rows of the quants at the reported positions, each looked up under its own lot |
| `DuplicateReport.ReportedPositions` | chk-odoo-dups.py:143-145 | over distinct keys, the reported positions are distinct, and a position is reported if and only if its lot is a key holding more than one quant |
| `DuplicateReport.ReportedInOrder` | chk-odoo-dups.py:143-145 | keys ordered by first appearance give rows ordered by their lot's first appearance, then by input position |
| `DuplicateReport.SharesLotIffSeveralPositions` | chk-odoo-dups.py:144 | a lot holds more than one position if and only if another quant shares it |
| `DuplicateReport.DuplicateSelection` | chk-odoo-dups.py:133-156 | a quant is reported if and only if another quant shares its lot; none is reported twice; rows follow lot first appearance, then input order |
| `DuplicateReport.SizesSplit` | chk-odoo-dups.py:143-145 | every group's size is counted once: in the report when above one, among the singletons when one |
| `DuplicateReport.DuplicateCount` | chk-odoo-dups.py:133-156 | number of rows plus number of lots seen exactly once equals the number of quants |
| `DuplicateReport.NoDuplicatesIffLotsUnique` | chk-odoo-dups.py:143-164 | the report is empty if and only if no two quants share a lot id |
| `ApiKey.IsSpace` | chk-odoo-dups.py:75 | holds exactly for the code points Python's `str.isspace()` accepts, the characters a bare `strip()` removes: 0x09-0x0D, 0x1C-0x20, 0x85, 0xA0, 0x1680, 0x2000-0x200A, 0x2028, 0x2029, 0x202F, 0x205F, 0x3000 |
| `ApiKey.StripLeading` | chk-odoo-dups.py:75 | the result is the suffix left after a run of leading whitespace, and does not start with whitespace |
| `ApiKey.StripTrailing` | chk-odoo-dups.py:75 | the result is the prefix left before a run of trailing whitespace, and does not end with whitespace |
| `ApiKey.Strip` | chk-odoo-dups.py:75 | the result is a slice of the input with only whitespace cut off either side; it is empty if and only if the input is blank, else it starts and ends with non-whitespace |
| `ApiKey.StripIdempotent` | chk-odoo-dups.py:75 | stripping twice is stripping once |
| `ApiKey.GetApiKey` | chk-odoo-dups.py:63-81 | a missing key file, a failed decryption and a blank decrypted text each give their own error; otherwise the key is the stripped, non-empty text |
| `ApiKey.AcceptedKeyIsStripped` | chk-odoo-dups.py:75-81 | an accepted key has no surrounding whitespace left |
| `Locations.FirstLocationId` | chk-odoo-dups.py:115-117 | none exactly when the search found nothing, otherwise the id of the first result |
| `Locations.ResolveLocations` | chk-odoo-dups.py:119-125 | both ids are returned if and only if both searches found something whose first id is non-zero; otherwise the "not found" error |
| `Scan.ScanLocations` | chk-odoo-dups.py:119-164 | the run stops with "not found" exactly when a location id is falsy; otherwise it concludes "No duplicates found." exactly when all lot ids are distinct, and otherwise lists the duplicate report |
| `Scan.SharedLotExample` | chk-odoo-dups.py:133-156 | two quants of one lot and one of another: exactly the first two positions are reported |
| `Scan.InputAndStockExample` | chk-odoo-dups.py:143-156 | one lot at "Input" with 5 and at "Stock" with 3: two rows naming that lot, "Input"/5 then "Stock"/3 |

## Left out

- GPG symmetric encryption and decryption (chk-odoo-dups.py:20, 57-60, 69-73) is a foreign library. Decryption is the input `Decryption(ok, text)`, and `store_api_key` is not modelled.
- XML-RPC transport, `authenticate` and its falsy-uid exit (chk-odoo-dups.py:101-108) are network calls. So are the server-side searches: the `ilike` match on `complete_name` and the quant filter on the two location ids and `lot_id != False`. Search results are inputs.
- The point reads at chk-odoo-dups.py:146-148 are total functions of an id. The `IndexError` the script would raise on an empty read answer is not modelled.
- File I/O for the configuration and key files is not modelled: directory creation and mode, `store_text_data`, `get_stored_text`, the existence test on the key file (an input `keyFileExists`) and `cleanup`'s file removal.
- Interactive prompts (`input`, `getpass`) and all console output are left out. `Conclude` stands for the two printing branches.
- The first-run bootstrap (chk-odoo-dups.py:88-94: prompt for a password and key, `store_api_key`, then a normal `exit()`) is prompts, GPG and file output, and is not modelled.
- The error exits that are modelled become `Failure` results. The `cleanup()` call before the location-check exit (chk-odoo-dups.py:124) is file removal and is left out; `get_api_key`'s exits (chk-odoo-dups.py:66, 73, 79) make no such call.
- Read answers for the product's `name`, the lot's `name` and the location's `complete_name` are taken to be strings: Odoo's `False` for an unset Char field is represented only for `default_code`, where it is carried into the row unchanged.
- Quantities are Odoo floats and are only passed through, so they are `real` and no arithmetic is done on them.
