# Teaching-script logic, modelled in Dafny

The repository is a collection of small Korean teaching scripts: crawlers with PyQt windows,
an Excel note cleaner, a canvas shooter game, a SQLite product manager, a download-folder
sorter, a page of function exercises and a bank-account class. Around their browser,
network, GUI, database and file I/O each script holds a little deterministic logic. This
project models that logic and proves what the scripts promise about it. One module covers
each script:

- `NoteSegment` (note_segment.dfy) covers keep_last_segment_infrom_note.py.
  - It finds the `\d+>` markers in a cell, keeps the text from the second-to-last marker
    (or the only one), strips it and deletes dates.
  - It estimates East Asian display widths (Unicode Standard Annex #11).
  - It rewrites column A of a sheet in place and clamps each column width to [8, 120].
- `Kimpga` (kimpga.dfy) covers the coin-table crawler of kimpga_gui_crawler.py:
  - which table rows become coin records;
  - the name/symbol split;
  - the `limit`, with consecutive ranks;
  - the colour of the change column;
  - the not-found error.
- `KimpgaSimple` (kimpga_simple_gui2.py) reuses the same row rule and reports its own two
  errors.
- `NaverStock` (naver_stock_gui_crawler.py) has two passes over the KOSPI 200 tables:
  - the anchor-text pass;
  - the row-text fallback, which runs only when the first pass finds nothing.
- `Shooter` (game1/game.js) models the game's state and player as the `Game` class:
  - start, pause, resume, reset, next level and end;
  - firing (1, 2, 4 or 8 bullets);
  - collisions, life loss and invulnerability;
  - item drops and power-ups;
  - the backward splice loops over enemies, bullets, items, particles and explosions;
  - one frame of the animation loop.
- `ProductManager` (healthcare_manager.py) models the product window as the `Window` class:
  - the table MyProd as a sequence of rows;
  - input validation;
  - the selection guards of update and delete;
  - search, the selection totals with `{:,}` formatting, and the Excel export rows.
- `FileOrganizer` (file_organizer.py) covers:
  - the case-insensitive extension-to-category lookup;
  - `os.path.splitext`;
  - the moved/skipped counters of one sorting pass.
- `DemoFunction` (list_utils.dfy) covers demoFunction.py:
  - `intersect` and `union`, which keep first occurrences in order;
  - `swap`, `func`, `func2`, `times` and `connectURL`.
- `Bank` (bank_account.dfy) models BankAccount.py:
  - the class as it behaves;
  - next to it, the evidently intended deposit and withdraw (see Findings).

Two helper modules are shared. `Wrappers` holds Option and Result. `Text` holds the parts of
Python's `str` the scripts rely on:

- the `isspace` set, `strip()` and `split()`;
- `' '.join`, substring `in` and `lower()`;
- `str(int)`, `int(str)` and `f'{n:,}'`.

Where the documentation and the code disagree, the model follows the code:

- keep_last_segment_infrom_note.py:3-8 says that only the last segment is kept. The code
  (48-53) keeps everything from the second-to-last marker. `NoteSegment.DocstringExample`
  proves that the docstring's own example keeps two segments.
- `remove_trailing_date_time` (61-91) says it removes a date at the end of the text. Its end
  anchor is commented out (line 86), so every date in the text is deleted.
  `NoteSegment.FirstDateDeleted` states this.

## Model

| member | source | states |
|---|---|---|
| Text.Strip | healthcare_manager.py:273-275 | `strip()` leaves no whitespace at either end and returns exactly the slice between the leading and the trailing whitespace runs |
| Text.StripIdempotent | healthcare_manager.py:273-275 | stripping twice equals stripping once |
| Text.ParseIntStrip | healthcare_manager.py:281-283 | `int()` of the stripped text equals `int()` of the raw text (it ignores surrounding whitespace) |
| Text.WordsWellFormed | kimpga_gui_crawler.py:144 | every word `split()` returns is non-empty and free of whitespace |
| Text.WordsOfJoin | kimpga_gui_crawler.py:144-147 | splitting `' '.join(ws)` gives back `ws` when each word is non-empty and space-free |
| Text.ContainsAt | naver_stock_gui_crawler.py:49 | `t in s` holds exactly when `t` occurs at some index of `s` |
| Text.ContainsChar | kimpga_gui_crawler.py:418-420 | a one-character `in` test holds exactly when the character appears in the string |
| Text.Lower | file_organizer.py:30 | `lower()` keeps the length, leaves no capital letter, turns each capital into its small letter, and keeps every other character in place |
| Text.LowerIdempotent | file_organizer.py:30 | lowering twice equals lowering once |
| Text.NatDigits | healthcare_manager.py:264 | `str(n)` of a natural number is non-empty, all digits, with no leading zero |
| Text.DecimalRoundTrip | healthcare_manager.py:262-266 | `int(str(n)) == n` for every integer, so the numbers the table shows read back |
| Text.ThousandsDigits | healthcare_manager.py:406-407 | deleting the commas of `f'{n:,}'` gives `str(n)` |
| NoteSegment.DigitRunEnd | keep_last_segment_infrom_note.py:33 | returns the end of the maximal run of digits starting at `i` |
| NoteSegment.FindMarkersSound | keep_last_segment_infrom_note.py:44 | every `\d+>` match found starts a maximal digit run followed by '>', and each match begins after the '>' of the one before |
| NoteSegment.FindMarkersComplete | keep_last_segment_infrom_note.py:44 | every maximal digit run followed by '>' is reported as a match |
| NoteSegment.MarkersExact | keep_last_segment_infrom_note.py:33-44 | the matches are exactly the marker starts, in increasing, non-overlapping order |
| NoteSegment.FindMarkersSuffix | keep_last_segment_infrom_note.py:56 | scanning a suffix reports the matches of the whole text that lie in it, shifted |
| NoteSegment.KeepStart | keep_last_segment_infrom_note.py:50-53 | the kept segment starts inside the text, at a marker |
| NoteSegment.ProcessCellValue | keep_last_segment_infrom_note.py:36-58 | a blank cell stays blank; text without a marker comes back unchanged; a non-text value becomes text; with a marker the result has no whitespace at either end |
| NoteSegment.KeptSegmentMarkers | keep_last_segment_infrom_note.py:48-56 | the kept segment starts with a marker and holds exactly the last two markers of the cell (or its only marker), at their shifted positions |
| NoteSegment.DocstringExample | keep_last_segment_infrom_note.py:3-8 | the docstring's example "1>a 2>b 3>c" yields "2>b 3>c", not only the last segment |
| NoteSegment.ExampleMarkers | keep_last_segment_infrom_note.py:6 | the markers of "1>a 2>b 3>c" are at 0, 4 and 8 |
| NoteSegment.DigitsAt | keep_last_segment_infrom_note.py:83 | greedy `\d{1,n}`: counts at most n digits, all digits, and stops before a digit only when the limit is reached |
| NoteSegment.PrefixEnd | keep_last_segment_infrom_note.py:80 | end of the whitespace/dash run where the optional separator before a date lies |
| NoteSegment.DateEnd | keep_last_segment_infrom_note.py:83 | a `YYYY<sep>M<sep>D` match is at least eight characters long and lies within the text |
| NoteSegment.TimeEnd | keep_last_segment_infrom_note.py:83 | the optional time and AM/PM part ends within the text, never before it starts |
| NoteSegment.DateMatchAt | keep_last_segment_infrom_note.py:79-88 | a date match found at `i` ends after `i` and within the text |
| NoteSegment.SubDates | keep_last_segment_infrom_note.py:90 | `re.sub` with the date pattern never lengthens the text |
| NoteSegment.SubDatesNoMatch | keep_last_segment_infrom_note.py:90 | where the pattern matches nowhere, `re.sub` returns the text unchanged |
| NoteSegment.FirstDateDeleted | keep_last_segment_infrom_note.py:79-90 | the first date match is cut out wherever it stands: the text before it is kept and the rest continues after the match |
| NoteSegment.RemoveTrailingDateTime | keep_last_segment_infrom_note.py:75-91 | the empty string is returned as is; the result is never longer than the input and has no whitespace at either end |
| NoteSegment.NoYearOnlyStrips | keep_last_segment_infrom_note.py:75-91 | text without four digits in a row is only stripped |
| NoteSegment.WidthBounds | keep_last_segment_infrom_note.py:100-112 | len(s) <= display width <= 2·len(s) |
| NoteSegment.WidthAppend | keep_last_segment_infrom_note.py:103-111 | the width of a concatenation is the sum of the widths |
| NoteSegment.DisplayLength | keep_last_segment_infrom_note.py:94-112 | the loop's total is the width (2 per wide character, 1 otherwise), lies between len(s) and 2·len(s), and is 0 for the empty string |
| NoteSegment.ColumnWidth | keep_last_segment_infrom_note.py:186 | the width lies in [8, 120]: the widest text plus 2 when that fits, otherwise the nearer bound |
| NoteSegment.RewriteColumn | keep_last_segment_infrom_note.py:160-168 | each cell of column A becomes its processed value, the other columns are unchanged, and `changed` counts the cells whose value changed |
| NoteSegment.RewriteColumnA | keep_last_segment_infrom_note.py:157-168 | the same, with `process_cell_value` as the rule |
| NoteSegment.ColumnWidths | keep_last_segment_infrom_note.py:170-187 | one width per column, each the clamped widest display length of its non-empty cells, in [8, 120] |
| NoteSegment.ProcessWorkbook | keep_last_segment_infrom_note.py:157-187 | the column rewrite followed by the width computation, with both results |
| Kimpga.SplitNameSymbol | kimpga_gui_crawler.py:144-150 | one word: name and symbol are the cell; two or more words: the symbol is the last word |
| Kimpga.NameSymbolRejoin | kimpga_gui_crawler.py:144-147 | the words of the name followed by the symbol are the words of the cell |
| Kimpga.NameSymbolOfCell | kimpga_gui_crawler.py:144-150 | for a stripped non-empty cell, the symbol is non-empty and holds no whitespace |
| Kimpga.MakeCoin | kimpga_gui_crawler.py:152-159 | the record carries the rank it is given |
| Kimpga.AcceptedCoin | kimpga_gui_crawler.py:143-159 | an accepted row's record has a price holding a digit and a one-word symbol |
| Kimpga.Filter | kimpga_gui_crawler.py:132-143 | the kept rows are at most the rows and all satisfy the rule |
| Kimpga.FilterMembers | kimpga_gui_crawler.py:132-143 | a row is kept exactly when it is among the rows and satisfies the rule |
| Kimpga.FilterPrefix | kimpga_gui_crawler.py:128 | the rows kept from a prefix are a prefix of the rows kept, so table order is preserved |
| Kimpga.Ranked | kimpga_gui_crawler.py:153 | one record per accepted row |
| Kimpga.RankedAt | kimpga_gui_crawler.py:153 | the k-th record is built from the k-th accepted row with rank k+1 |
| Kimpga.Collect | kimpga_gui_crawler.py:128-161 | the loop yields min(limit, accepted rows) records (none when limit <= 0), ranked 1, 2, … over the first accepted rows |
| Kimpga.ExtractCoins | kimpga_gui_crawler.py:128-174 | the crawl returns min(limit, accepted rows) coins, and coin k is the k-th accepted row with rank k+1 |
| Kimpga.ChangeColour | kimpga_gui_crawler.py:417-421 | rising exactly when the text holds '+'; falling exactly when it holds '-' and no '+' |
| Kimpga.Run | kimpga_gui_crawler.py:64-75 | an error with the not-found message exactly when there is no table, no positive limit or no accepted row; otherwise the coins of the first table |
| KimpgaSimple.Run | kimpga_simple_gui2.py:75-130 | no table raises "table not found"; no coins raises "no data", and these are its only errors; it succeeds exactly when there is a table, a positive limit and an accepted row, with the first table's coins ranked in row order, at most `limit` |
| NaverStock.AnchorRecord | naver_stock_gui_crawler.py:41-63 | a row yields a record exactly when its first cell has an anchor whose text contains a target; the record is named by that anchor text |
| NaverStock.AnchorRows | naver_stock_gui_crawler.py:40-63 | at most one record per row |
| NaverStock.AnchorRowsMembers | naver_stock_gui_crawler.py:40-63 | the records of a table are exactly the anchor records of its rows |
| NaverStock.AnchorRowsEmpty | naver_stock_gui_crawler.py:40-49 | a table gives no records exactly when none of its rows names a target |
| NaverStock.AnchorPassEmpty | naver_stock_gui_crawler.py:38-67 | the first pass finds nothing exactly when no row of any table names a target in its anchor |
| NaverStock.TargetStock | naver_stock_gui_crawler.py:99-105 | a fallback record is named by the target itself |
| NaverStock.RowHits | naver_stock_gui_crawler.py:94-105 | a row yields at most as many fallback records as there are targets, each named by one of the targets |
| NaverStock.RowHitsOncePerTarget | naver_stock_gui_crawler.py:94-105 | when no target is listed twice, no two fallback records of a row share a name: at most one record per target |
| NaverStock.TargetsDistinct | naver_stock_gui_crawler.py:32 | the script's three target names are distinct, so the per-target bound applies to it |
| NaverStock.RowHitsMembers | naver_stock_gui_crawler.py:94-105 | a row's fallback records are exactly the records of the targets its text contains, when it has at least five cells |
| NaverStock.CrawlAnchors | naver_stock_gui_crawler.py:36-63 | the nested table/row loop yields the anchor-pass records, in table order and then row order |
| NaverStock.CrawlFallback | naver_stock_gui_crawler.py:90-107 | the table/row/target loop yields the fallback records in that order |
| NaverStock.Run | naver_stock_gui_crawler.py:31-71 | the anchor-pass records when there are any, otherwise the fallback records of the second download |
| Shooter.OverlapSharesPixel | game1/game.js:415-420 | the strict `checkCollision` holds exactly when the two boxes share a pixel, so boxes that only share an edge do not collide |
| Shooter.Clamp | game1/game.js:298 | the position lies within [0, hi] and is unchanged when already inside |
| Shooter.SpawnKind | game1/game.js:256-267 | a boss exactly when score > 500·level and the 5% draw succeeds; medium only from level 2 and large only from level 3 |
| Shooter.NewEnemy | game1/game.js:269-283 | a new enemy has full, positive health and a positive score, and starts just above the screen |
| Shooter.DropItem | game1/game.js:463-488 | a medium enemy drops a medium apple worth 50 points; every other enemy drops its own fruit as a power item worth 0 |
| Shooter.PointValue | game1/game.js:397 | `item.point \|\| 50` is positive for any non-negative point value |
| Shooter.LostLife | game1/game.js:342-352 | one life less with score, level and gun kept; the game ends (not running, over) exactly when no life is left |
| Shooter.Angles | game1/game.js:225-236 | a spread of exactly `bulletCount` angles for 1, 2, 4 or 8, and none otherwise |
| Shooter.AnglesMirrored | game1/game.js:228-236 | every spread holds the opposite of each of its angles, and no angle twice |
| Shooter.VolleyMirrored | game1/game.js:225-251 | every volley is mirror-symmetric about the vertical: each bullet has a twin leaving from the same spot at the opposite angle, and no two bullets coincide |
| Shooter.Fire | game1/game.js:240-249 | a bullet has damage 1 and the given angle, and starts at the player's top edge |
| Shooter.VolleySnoc | game1/game.js:238-251 | the bullets are pushed one per angle, in angle order |
| Shooter.TouchesMeans | game1/game.js:336-342 | an enemy hurts the player exactly when one still on screen overlaps the player |
| Shooter.OnScreenMembers | game1/game.js:336-339 | the enemies kept are exactly those not below the screen |
| Shooter.DodgeHits | game1/game.js:357-380 | the player is hit exactly when not invulnerable and some enemy bullet on screen touches them, and then exactly one bullet is used up: at most one life per frame |
| Shooter.ItemsStep | game1/game.js:383-412 | the backward walk over items adds each item's share to the kept items, the points and the power-ups |
| Shooter.PowerUpStaysLevel | game1/game.js:403 | doubling capped at 8 keeps the bullet count in {1, 2, 4, 8} |
| Shooter.PowerUpFromOne | game1/game.js:403-404 | from one bullet, power items give 1, 2, 4 and then 8 for good |
| Shooter.BonusNonNegative | game1/game.js:396-397 | caught items never take points away |
| Shooter.UncaughtPoints | game1/game.js:383-392 | items that keep falling keep their point values |
| Shooter.WalkItems | game1/game.js:382-413 | the loop leaves the uncaught items; it adds the caught points to the score; it doubles the gun per caught power item, capped at 8; it sets the bullet level to log2 + 1 |
| Shooter.LastHit | game1/game.js:426-429 | the backward scan finds the last enemy the bullet touches, and none lies after it |
| Shooter.Strike | game1/game.js:426-447 | the bullets before `i` are untouched and at most one bullet is used up |
| Shooter.StrikeOneEnemy | game1/game.js:426-446 | a bullet that touches no enemy changes nothing; otherwise one enemy is damaged in place, or removed with its score added and the kill counted, and the bullet is removed |
| Shooter.Aim | game1/game.js:426-448 | the inner loop computes `Strike` |
| Shooter.StrikesAccount | game1/game.js:422-450 | over the whole pass, every destroyed enemy used up a bullet; kills equal the enemies gone; items are only added, at most one per kill; the score only grows |
| Shooter.AccountsChain | game1/game.js:422-450 | those bookkeeping facts compose over consecutive bullets |
| Shooter.Survivors | game1/game.js:517-541 | aging never lengthens the list |
| Shooter.SurvivorsMembers | game1/game.js:517-541 | what is left is exactly the aged entries still alive (life > 0) |
| Shooter.Game.constructor | game1/game.js:26-54 | the page as loaded: score 0, 3 lives, level 1, one bullet, the player at home, empty lists |
| Shooter.Game.Launch | game1/game.js:132-135 | only a stopped game starts (running, unpaused, not over); nothing else changes before the first frame |
| Shooter.Game.Start | game1/game.js:131-148 | a running game is left alone; a stopped one is launched and plays its first frame at once through `gameLoop()`, which costs at most one life, never lowers the score and keeps the level |
| Shooter.Game.Pause | game1/game.js:150-157 | only a running, unpaused game pauses |
| Shooter.Game.Unpause | game1/game.js:160-161 | only a paused game resumes; nothing else changes before its frame |
| Shooter.Game.Resume | game1/game.js:159-167 | an unpaused game is left alone; a paused one resumes and plays a frame at once, losing at most one life, never lowering the score and keeping the level |
| Shooter.Game.Reset | game1/game.js:169-203 | score 0, 3 lives, level 1, one bullet, no invulnerability, the player at home, all lists empty |
| Shooter.Game.Advance | game1/game.js:205-218 | level + 1 and running again; score, lives and gun kept; every list cleared except the items |
| Shooter.Game.NextLevel | game1/game.js:205-221 | the level goes up by one and the first frame of the new level is played at once: at most one life lost, the score never lower |
| Shooter.Game.EndGame | game1/game.js:558-564 | not running and over; nothing else changes |
| Shooter.Game.CheckLevelCompletion | game1/game.js:549-556 | the loop stops exactly when score >= 1000·level and no enemy is left |
| Shooter.Game.PlayerShoot | game1/game.js:223-254 | exactly `bulletCount` bullets are appended, one per spread angle; nothing else changes |
| Shooter.Game.OnSpace | game1/game.js:92-101 | the space bar shoots unless the game is over or paused |
| Shooter.Game.OnClick | game1/game.js:115-119 | a click shoots only in a running, unpaused game that is not over |
| Shooter.Game.MouseMove | game1/game.js:107-113 | in a running, unpaused game the player is centred on the pointer, kept on the canvas |
| Shooter.Game.UpdatePlayer | game1/game.js:288-303 | the arrow keys move the player by 5 within the canvas; the invulnerability timer counts down to 0 |
| Shooter.Game.Spawn | game1/game.js:256-286 | no spawning while paused or over; otherwise the new enemy is appended, and a column drawn in the lane (`InLane`) puts it wholly on the canvas |
| Shooter.Game.UpdateEnemies | game1/game.js:317-355 | enemies below the screen go; a touching enemy costs a life only when the player is not invulnerable, and then invulnerability is set to 120 |
| Shooter.Game.UpdateEnemyBullets | game1/game.js:357-380 | the remaining enemy bullets and the life loss are as `Dodge` describes: at most one life |
| Shooter.Game.UpdateItems | game1/game.js:382-413 | uncaught items remain; the score grows by the caught points; the gun doubles per power item, capped at 8; the bullet level follows |
| Shooter.Game.CheckBulletCollisions | game1/game.js:422-450 | bullets, enemies, score and items become the result of the backward pass; the score never drops |
| Shooter.Game.UpdateParticles | game1/game.js:517-529 | every particle ages one frame and dead ones are removed, in order |
| Shooter.Game.UpdateExplosions | game1/game.js:531-541 | every explosion grows by 2 and ages one frame; spent ones are removed, in order |
| Shooter.Game.Tick | game1/game.js:866-886 | nothing changes unless running and unpaused; a frame costs at most one life, never lowers the score and keeps the level |
| ProductManager.DecimalStrip | healthcare_manager.py:264 | `str(n)` is non-empty, has nothing to strip, and `int(str(n)) == n` |
| ProductManager.Validate | healthcare_manager.py:273-286 | an accepted entry has a non-empty stripped name |
| ProductManager.ValidateMeans | healthcare_manager.py:273-286 | the "fill all fields" warning exactly when a stripped field is empty; success exactly when the name is non-empty and price and qty parse; the entry carries the stripped name and the parsed numbers |
| ProductManager.FormRoundTrip | healthcare_manager.py:378-384 | a stored product, put back into the form as shown, validates to itself |
| ProductManager.Select | healthcare_manager.py:249-255 | a product is listed exactly when it is stored and matches the term |
| ProductManager.SelectAll | healthcare_manager.py:254-255 | without a term every product is listed, in order |
| ProductManager.Revised | healthcare_manager.py:326-329 | only the rows with that id take the new name, price and qty; ids and all other rows are unchanged |
| ProductManager.InsertKeeps | healthcare_manager.py:290-293 | an insert with the next id keeps every name stored and every id below the next one |
| ProductManager.RevisedKeeps | healthcare_manager.py:326-329 | an update keeps every name stored and every id below the next one |
| ProductManager.Deleted | healthcare_manager.py:354 | exactly the products with another id remain |
| ProductManager.Show | healthcare_manager.py:260-266 | one table row per product |
| ProductManager.ShownReading | healthcare_manager.py:394-399 | every row written by `load_data` reads back with its own price and quantity |
| ProductManager.TotalsAppend | healthcare_manager.py:389-403 | the totals of two selections together are the sums of their totals |
| ProductManager.SkippedRow | healthcare_manager.py:393-401 | a selected row with a missing cell or a non-integer price or qty changes neither total |
| ProductManager.TotalsStep | healthcare_manager.py:391-403 | one more selected row adds its quantity and its price·quantity |
| ProductManager.AddUp | healthcare_manager.py:388-403 | the loop computes (Σ qty, Σ price·qty) over the selected rows, skipping unreadable ones |
| ProductManager.Sheet | healthcare_manager.py:421-430 | a header row, then one four-column row per table row, with '' where there is no item |
| ProductManager.ExportRoundTrip | healthcare_manager.py:425-430 | an exported row of the shown table reads back as the same id, name, price and qty |
| ProductManager.Samples | healthcare_manager.py:40-50 | five sample products with consecutive ids |
| ProductManager.SamplesStored | healthcare_manager.py:40-46 | every sample name is stored as it is |
| ProductManager.Window.constructor | healthcare_manager.py:15-53 | an empty table is seeded with the samples (the next id moves past them), then loaded; totals 0 |
| ProductManager.Window.UpdateTotals | healthcare_manager.py:386-407 | the labels show the selection's totals with thousands separators; nothing else changes |
| ProductManager.Window.LoadData | healthcare_manager.py:244-269 | the table shows the matching products (all of them without a term); the totals reset to 0 |
| ProductManager.Window.ClearInputs | healthcare_manager.py:372-376 | the three fields are emptied |
| ProductManager.Window.AddProduct | healthcare_manager.py:271-299 | invalid input: warning, and database, table, fields and total labels unchanged; valid: the product is appended with the next id, confirmed, fields cleared, table reloaded, totals back to 0 |
| ProductManager.Window.Insert | healthcare_manager.py:288-299 | the insert with the next id, confirmation, clearing and reload, with the totals back to 0 |
| ProductManager.Window.UpdateProduct | healthcare_manager.py:301-335 | no selected row or invalid input: warning, and database, table, fields and total labels unchanged; otherwise the selected product's row is revised, fields cleared, the table reloaded and the totals back to 0 |
| ProductManager.Window.DeleteProduct | healthcare_manager.py:337-360 | no selected row: warning, and database, table, fields and total labels unchanged; "No": nothing changes; "Yes": the selected product is deleted, fields cleared, the table reloaded and the totals back to 0 |
| ProductManager.Window.SearchProduct | healthcare_manager.py:362-370 | an empty term warns and leaves table and totals as they are; otherwise the table shows the products matching the stripped term and the totals are back to 0; database and fields unchanged |
| ProductManager.Window.OnTableClicked | healthcare_manager.py:378-384 | a selected row's name, price and quantity go into the fields; without a selection nothing changes |
| ProductManager.Window.ExportToExcel | healthcare_manager.py:409-437 | an empty table gives no sheet and the "nothing to save" notice; otherwise the sheet rows of the table and the saved or failed notice; database, table, fields and total labels unchanged |
| FileOrganizer.FindIn | file_organizer.py:31-34 | a category found lists the extension; none found means no category lists it |
| FileOrganizer.CategoriesDisjoint | file_organizer.py:9-14 | no extension is listed under two categories |
| FileOrganizer.DestinationMeans | file_organizer.py:28-34 | the destination is `c` exactly when `c` lists the lower-cased extension, whatever the search order |
| FileOrganizer.DestinationIgnoresCase | file_organizer.py:30 | the lookup gives the same answer for the lower-cased extension |
| FileOrganizer.NoExtensionStays | file_organizer.py:9-14 | an empty extension has no destination |
| FileOrganizer.DestinationExamples | file_organizer.py:28-34 | ".JPG" goes to images, ".Pdf" to docs, ".tar" nowhere |
| FileOrganizer.LastDot | file_organizer.py:58 | the index of the last '.', or no '.' at all |
| FileOrganizer.SplitExt | file_organizer.py:58 | root + ext is the name; ext is empty or a '.' followed by no other '.'; a non-empty ext follows a non-dot character |
| FileOrganizer.SplitExtEmpty | file_organizer.py:58 | the extension is empty exactly when no '.' follows a non-dot character |
| FileOrganizer.CountsAddUp | file_organizer.py:47-75 | moved + skipped + failed = files, so moved + skipped <= files; the moves attempted are the moved plus the failed |
| FileOrganizer.AllMovesSucceed | file_organizer.py:63-75 | when no move fails, each file is counted exactly once |
| FileOrganizer.NoneFailed | file_organizer.py:66-72 | with every move succeeding, nothing fails |
| FileOrganizer.AttemptsClassified | file_organizer.py:58-68 | each attempted move takes a listed file to the category that lists its lower-cased extension |
| FileOrganizer.Step | file_organizer.py:47-75 | what one entry adds to the counters and the moves |
| FileOrganizer.OrganizeFiles | file_organizer.py:37-75 | a missing folder does nothing; otherwise the counters are the moved and skipped counts and the moves are the attempts in listing order |
| DemoFunction.DedupSnoc | demoFunction.py:20-22 | appending x adds it at the end unless it is already there |
| DemoFunction.DedupMeans | demoFunction.py:19-23 | no repeats, exactly the input's elements, and the prefix's result is a prefix of the result (first-occurrence order) |
| DemoFunction.CommonMeans | demoFunction.py:21 | x is kept exactly when it is in both lists |
| DemoFunction.CommonPrefix | demoFunction.py:20 | the result for a prefix of `prelist` is a prefix of the result |
| DemoFunction.Intersect | demoFunction.py:18-23 | the loop computes the first occurrences of the elements of `prelist` that are in `postlist` |
| DemoFunction.IntersectMeans | demoFunction.py:18-23 | no repeats; x is in the result exactly when it is in both; elements come in `prelist` order |
| DemoFunction.IntersectExample | demoFunction.py:26 | `intersect("HAM", "SPAM")` is ['A', 'M'] |
| DemoFunction.ConcatMeans | demoFunction.py:61-62 | x is among the arguments' elements exactly when some argument holds it |
| DemoFunction.ConcatPrefix | demoFunction.py:61 | the elements of the first arguments are a prefix of all elements |
| DemoFunction.Union | demoFunction.py:59-65 | the nested loop computes the first occurrences over all arguments in order |
| DemoFunction.UnionMeans | demoFunction.py:59-65 | no repeats, exactly the elements of all arguments, ordered by first occurrence across them |
| DemoFunction.SwapTwice | demoFunction.py:11-14 | swapping twice gives back the arguments |
| DemoFunction.Func2 | demoFunction.py:36-38 | adds its local X = 10, i.e. 5 more than `func` |
| DemoFunction.TimesCalls | demoFunction.py:44-48 | `times()` = 200, `times(5)` = 100, `times(5, 6)` = 30 |
| DemoFunction.TimesDefaults | demoFunction.py:44-45 | for all arguments, a missing `a` counts as 10 and a missing `b` as 20, and the order of the two arguments does not matter |
| DemoFunction.ConnectURL | demoFunction.py:51-53 | "http://" then the server, ':' and the port, at those positions |
| DemoFunction.ConnectURLExample | demoFunction.py:54-56 | both calls give "http://daum.net:80" |
| Bank.WithdrawAsWritten | BankAccount.py:16-22 | as written, the amount is deducted whatever is reported; "insufficient" is reported exactly when the amount is more than half the balance; every other call raises AttributeError |
| Bank.DepositFails | BankAccount.py:30-32 | the script's deposit(5000) on 15000 leaves 20000 and ends in an AttributeError |
| Bank.WithdrawMisjudges | BankAccount.py:16-19 | withdrawing 10000 from 15000 is reported insufficient yet deducted; withdrawing 20000 leaves -5000 |
| Bank.WithdrawNeverCompletes | BankAccount.py:16-22 | as written, no withdraw ever prints its success message |
| Bank.DepositAsWrittenVsIntended | BankAccount.py:12-14 | the deposit as written leaves the same balance as the intended one but never reports it |
| Bank.SufficientFundsAgree | BankAccount.py:16-22 | with sufficient funds, the as-written and intended withdraw leave the same balance, and only the intended one reports the withdrawal |
| Bank.NatDigitsHead | BankAccount.py:22 | `str(n)` starts with a digit or '-' |
| Bank.WithdrawNeverOverdraws | BankAccount.py:16-22 | the intended withdraw never takes a non-negative balance below zero |
| Bank.DepositThenWithdraw | BankAccount.py:12-22 | withdrawing what was just deposited restores the balance |
| Bank.ScriptAsIntended | BankAccount.py:30-36 | with the intended methods the script goes 15000, 20000, 17000 |
| Bank.Fields | BankAccount.py:25 | where the id, name and balance lie in "{0} , {1} , {2}" |
| Bank.RenderReadsBack | BankAccount.py:24-26 | `__str__` reads back: the id before the first " , ", then the name, and the balance at the end |
| Bank.BankAccount.constructor | BankAccount.py:6-10 | stores id, name and balance; id and name are constants |
| Bank.BankAccount.Deposit | BankAccount.py:12-14 | the new balance and the outcome are those of `DepositAsWritten` |
| Bank.BankAccount.Withdraw | BankAccount.py:16-22 | the new balance and the outcome are those of `WithdrawAsWritten` |

## Left out

- Browser and network I/O:
  - the Selenium driver and sleeps;
  - the `requests` download;
  - BeautifulSoup parsing.

  Tables arrive as already-extracted cell texts; the anchor of a cell is an `Option`.
- PyQt widgets, signals, styles, message-box wording and the worker threads (GUI and
  concurrency). Notices are an enumeration; the table's current row, its selection, the
  Yes/No answer and the outcome of saving a file are parameters.
- SQLite: MyProd is a sequence of rows in rowid order.
  - `LIKE '%term%'` is modelled as a substring test after ASCII lower-casing. The `%` and
    `_` wildcards inside the term, and SQLite's own case rules, are not modelled.
  - The AUTOINCREMENT counter is the `nextId` field.
- openpyxl: loading and saving workbooks, the backup copy and argparse. The export's file
  name with its timestamp is also left out. A sheet is a 2-D array of cell values; a
  non-text cell is treated as always changed by the rewrite.
- East Asian Width: `IsWide` is a range table of the main wide and fullwidth blocks, not
  Python's full Unicode database. The width lemmas do not depend on it.
- `str.isdigit`, `\d` and `int()` accept ASCII digits only here. Python also accepts other
  Unicode digit characters: `\d` and `int()` take other decimal digits, and `isdigit` also
  takes non-decimal digits such as '²', which `int()` then rejects.
- `lower()` lowers ASCII letters only.
- Floating point:
  - progress percentages;
  - the naver crawler's `float(change)` colouring;
  - bullet, enemy, item and particle velocities, gravity and `Math.sin`/`Math.cos`.
- Movement in game.js is modelled only where it decides something:
  - items fall by 2 per frame;
  - positions are integers;
  - the flight of player bullets and enemy bullets, and enemy movement, are left out.
- game.js drawing, sounds, the starfield, the UI text and `requestAnimationFrame`.
- game.js effects of a hit: `createExplosion` and `createParticles` do not add entries to
  the particle and explosion lists.
- game.js `enemyShoot`, driven by random timers: the enemy bullets only leave the list.
- Every `Math.random()` draw is a parameter: the spawn kind and position (`Arrival`) and the
  30% drop draw (`roll`, by kill ordinal).
- File system: `os.listdir`, `os.path.isdir` and `shutil.move` become parameters (the
  listing, an `isDir` flag, and an `ok` outcome per entry).
  - `create_destination_folders` and the print-only branch for directories are not
    modelled.
  - `os.path.splitext` is modelled on a bare file name, with no directory separators.
- demoFunction.py `setValue` (print only) and the `union("HAM", "EGG", …)` example calls
  are not modelled.
- NoteSegment.ProcessWorkbook: requires at least one column, as every openpyxl sheet has
  one.
- The dead code after `return` in `display_length` (keep_last_segment_infrom_note.py:113-133)
  is not modelled.

## Findings

| source | as written | input that shows it | evidently intended | confidence | as-written member | corrected member |
|---|---|---|---|---|---|---|
| BankAccount.py:14 | `deposit` prints `self.balance`, an attribute the class never defines (the field is the name-mangled `__balance`), so every deposit raises AttributeError after the balance has grown | `BankAccount(100, "전우치", 15000).deposit(5000)`: the balance becomes 20000, then AttributeError | report the private balance | not executed | Bank.DepositAsWritten, Bank.DepositFails | Bank.Deposit, Bank.DepositAsWrittenVsIntended, Bank.DepositThenWithdraw |
| BankAccount.py:17-22 | `withdraw` subtracts before its check, compares the amount with the reduced balance, and its other branch reads the undefined `balance` | withdraw(10000) on 15000 prints "잔액이 부족합니다." yet leaves 5000; withdraw(20000) leaves -5000 | refuse when the amount exceeds the balance, otherwise subtract once and report | not executed | Bank.WithdrawAsWritten, Bank.WithdrawMisjudges | Bank.Withdraw, Bank.WithdrawNeverOverdraws, Bank.SufficientFundsAgree |
