# Inventory, orders and accounts: a verified model

This project models the core of a small inventory and order-management
back end written in Python. Its parts:

- a product catalogue (`modules/produits.py`);
- an order engine that takes and gives back stock (`modules/commandes.py`);
- user accounts with salted password hashes, a breached-password lookup
  and an audit log (`modules/auth.py`, `modules/password_check.py`);
- sales statistics and a top-sellers ranking (`modules/stats.py`);
- a one-off migration of the orders table to an orders-plus-lines schema
  (`migrate_commandes.py`);
- the request logic of the HTTP API (`api.py`);
- a hard-coded-secret detector (`modules/audit.py`);
- two maintenance scripts that strip trailing whitespace from Python files
  (`clean_whitespace.py`, `format_all.py`).

Each source module is one Dafny module:

| Dafny module | file | source |
|---|---|---|
| `Common` | common.dfy | `Option`, `Result`, `Outcome` |
| `Text` | text.dfy | the Python string operations used: `rstrip`, `strip`, `lower`, `startswith`, `in`, `int()`, `str()` |
| `Ids` | ids.dfy | `max(ids) + 1` |
| `Produits` | produits.dfy | modules/produits.py |
| `Commandes` | commandes.dfy | modules/commandes.py |
| `Auth` | auth.dfy | modules/auth.py |
| `PasswordCheck` | password_check.dfy | modules/password_check.py |
| `Stats` | stats.dfy | modules/stats.py |
| `Migration` | migration.dfy | migrate_commandes.py |
| `Api` | api.dfy | api.py |
| `Audit` | audit.dfy | modules/audit.py |
| `CleanWhitespace` | clean_whitespace.dfy | clean_whitespace.py, and format_all.py lines 22-28 |
| `FormatAll` | format_all.dfy | format_all.py |

## How the model is built

The source changes things in place, and the model does the same wherever it
does. Each entity whose fields the source updates becomes a class:

- `Produits.Catalogue` holds the caller's product list, plus a ghost field
  holding the snapshot last saved.
- `Commandes.Boutique` holds the products and orders tables.
- `Auth.Comptes` holds the users table and the audit log.
- `Migration.Fichiers` holds the orders, order-lines and backup files.

Their methods follow the source statement by statement, loops included.
Each method's `ensures` ties the new state and the result to a pure
function of the old state: `Creer`, `Annuler`, `Valider`, `Register` and
`Login`. The properties the source promises are proved as lemmas about
those functions. The Python loops become `while` loops with invariants,
proved against recursive specification functions:

- the status loop of `valider_commande`;
- the keyword-argument loop of `modifier_produit`;
- the tally and collect loops of `top_produits`;
- the row loop of the migration;
- the nested loops of `verifier_secrets`;
- the `users_safe` loop.

Comprehensions and expressions stay functions, as they are in the code:
the summary statistics, pagination, the token gate, the response scan of
the breached-password check, the line transform and the file walk.

Python behaviour is spelled out where it matters:

- Slices clamp their bounds and take negative indices from the end.
- `//` floors.
- `next(...)` and `list.remove` take the first match.
- `dict` keys iterate in insertion order.
- `list.sort` is stable.
- `readlines` keeps each line's "\n".
- `ligne.split(":")` unpacked into two names raises unless the line has
  exactly one colon.
- `int()` accepts surrounding whitespace and one sign.

Money (`prix`, `total`) is an integer number of cents.

Two facts of the code shape the model:

- An order holds one product (modules/commandes.py:48-83).
- A request exception or a non-200 status gives an unknown verdict that
  does not block (modules/password_check.py:25-26, 36-37). A response line
  that does not split into two fields, or a matching line whose count is
  not an integer, raises a `ValueError` that `creer_compte` does not catch
  (`Auth.RegisterResult.Exception`).

## Model

| member | source | states |
|---|---|---|
| Ids.FirstIndex | modules/produits.py:58-61 | the first position holding the id, none before it holds it; None exactly when no position does |
| Ids.NextId | modules/produits.py:35-39 | 1 for no ids; otherwise one more than some id, and above every id |
| Produits.GenererId | modules/produits.py:35-39 | a fresh product id: 1 for an empty catalogue, otherwise max id + 1, above every existing id |
| Produits.FindIndex | modules/produits.py:56-61 | the index of the first record with the id, none before it has that id; None exactly when no record has it |
| Produits.TrouverProduit | modules/produits.py:56-61 | the first record whose id matches, or None exactly when no record has that id |
| Produits.ApplyFields | modules/produits.py:66-70 | after `modifier_produit`'s loop the id is unchanged; each field holds the last value given for it, or its old value when no argument names it; "id" and unknown keys change nothing |
| Produits.Catalogue.AjouterProduit | modules/produits.py:42-53 | appends exactly one record, with the generated id, after the unchanged earlier records; the saved table is the new list |
| Produits.Catalogue.ModifierProduit | modules/produits.py:64-73 | on a present id, only the first matching record changes, to the updated record, which is returned and saved; on an absent id it returns None and saves nothing |
| Produits.Catalogue.SupprimerProduit | modules/produits.py:76-83 | True exactly when the id is present; then that record alone is removed, the rest keep their order, and the list is saved; otherwise the list and the saved table are unchanged |
| Produits.AddKeepsUniqueIds | modules/produits.py:39-51 | adding a product keeps the catalogue's ids pairwise distinct |
| Produits.UpdateKeepsIds | modules/produits.py:66-70 | a partial update leaves every id of the list as it was |
| Produits.RemoveKeepsUniqueIds | modules/produits.py:76-83 | removal keeps ids distinct, and the removed id can no longer be found |
| Commandes.GenererIdCommande | modules/commandes.py:41-45 | 1 when there are no orders, otherwise max id + 1, above every existing order id |
| Commandes.FindOrder | modules/commandes.py:89-93 | the index of the first order with the id, or None exactly when no order has it |
| Commandes.Creer | modules/commandes.py:48-83 | a refusal leaves both tables as they were; a success appends exactly the returned order; the products table keeps its length |
| Commandes.Annuler | modules/commandes.py:85-113 | a refusal leaves both tables as they were; both tables keep their length |
| Commandes.Valider | modules/commandes.py:115-127 | a refusal leaves both tables as they were; the products table is never touched and the orders table keeps its length |
| Commandes.Boutique.CreerCommande | modules/commandes.py:48-83 | the tables and result are those of `Creer` on the tables before the call |
| Commandes.Boutique.AnnulerCommande | modules/commandes.py:85-113 | the tables and result are those of `Annuler` on the tables before the call |
| Commandes.Boutique.ValiderCommande | modules/commandes.py:115-127 | the tables and result are those of `Valider` on the tables before the call |
| Commandes.CreerFailure | modules/commandes.py:51-57 | creation fails exactly for an unknown product or a stock below the quantity, and a failure changes neither table |
| Commandes.CreerSuccess | modules/commandes.py:56-79 | on success the ordered product loses exactly `quantite` and stays non-negative, no other product changes, and one order is appended: `en_attente`, the product's id, price and quantity, total = price x quantity, an id above all others |
| Commandes.CreerKeepsStocksNonNegative | modules/commandes.py:56-75 | creating an order never drives a stock below zero |
| Commandes.CreerKeepsUniqueOrderIds | modules/commandes.py:41-45 | creating an order keeps order ids pairwise distinct |
| Commandes.AnnulerSpec | modules/commandes.py:85-113 | cancelling fails exactly for an unknown id or an order already `annulee`, with nothing changed; otherwise, a validated order included, it marks the order `annulee`, changes no other order, and adds its quantity back to the product, or leaves the products alone when the product is gone |
| Commandes.ValiderSpec | modules/commandes.py:115-127 | validation succeeds exactly for a known `en_attente` order and then only sets it to `validee`; a failure changes nothing |
| Commandes.ValiderTwice | modules/commandes.py:121-123 | validating the same order a second time fails and changes nothing |
| Commandes.AnnulerTwice | modules/commandes.py:98-99 | cancelling the same order a second time fails and changes nothing |
| Commandes.StatusMachine | modules/commandes.py:71-123 | every operation only moves `en_attente` to `validee`, or a non-cancelled order to `annulee`; `annulee` is final |
| Commandes.CreerAnnulerRoundTrip | modules/commandes.py:75-110 | creating an order and then cancelling it restores the products table exactly and leaves the new order in place, cancelled |
| Commandes.AnnulerRestoresStock | modules/commandes.py:101-106 | cancelling a non-cancelled order gives its product back exactly the ordered quantity, whatever happened in between |
| Auth.Violations | modules/auth.py:127-143 | each violated rule appears once, in checking order (length, upper case, lower case, digit), and exactly the violated ones |
| Auth.ValiderMotDePasse | modules/auth.py:127-143 | the error list is the violated rules in checking order, and the password is valid exactly when that list is empty |
| Auth.NouvelId | modules/auth.py:87 | 1 for no users, otherwise one more than an existing id and above all of them |
| Auth.TrouverUtilisateur | modules/auth.py:50-55 | the first user whose name equals the argument exactly, or None exactly when there is none |
| Auth.Register | modules/auth.py:58-100 | a created user is appended to the table and every refusal keeps it; one log row per call, none when the breached-password check raises |
| Auth.Login | modules/auth.py:104-122 | the users table is unchanged, and exactly one log row is written, whose success flag is the outcome |
| Auth.Comptes.EnregistrerLog | modules/auth.py:145-160 | appends exactly one row, with this user, action and flag, to the log |
| Auth.Comptes.CreerCompte | modules/auth.py:58-100 | the users table, result and appended log rows are those of `Register` on the table before the call |
| Auth.Comptes.VerifierConnexion | modules/auth.py:104-122 | the result and appended log rows are those of `Login`; the users table is not written |
| Auth.RegisterCheckOrder | modules/auth.py:63-80 | the checks run as duplicate, then weak, then compromised: each refusal happens exactly when the earlier checks passed and its own failed; a check that could not answer does not block; a refusal leaves the users table unchanged |
| Auth.RegisterAppends | modules/auth.py:83-97 | a created user gets the next id, the given name and salt, and hash(password ++ salt); it is appended at the end, and unique user names stay unique |
| Auth.OneLogEntryPerCall | modules/auth.py:64-121 | each returning call to `creer_compte` or `verifier_connexion` appends exactly one log row for this user and action, whose success flag is the outcome |
| Auth.LoginSpec | modules/auth.py:104-122 | login succeeds exactly when the user exists and hashing the password with the stored salt gives the stored hash, and then returns that user |
| Auth.RegisterThenLogin | modules/auth.py:83-117 | after a successful account creation, logging in with the same name and password succeeds and returns the new user |
| PasswordCheck.SplitDigest | modules/password_check.py:17-18 | the prefix is the first 5 characters (fewer for a shorter digest), and prefix ++ suffix is the digest |
| PasswordCheck.SplitColon | modules/password_check.py:30 | the two-name unpacking of `split(":")` succeeds exactly on a line with one colon, into the parts around it |
| PasswordCheck.Scan | modules/password_check.py:29-34 | the scan never gives the unknown verdict, and no lines means not compromised, since both a count and a raise need a line |
| PasswordCheck.ScanNotFound | modules/password_check.py:29-34 | the scan reports (False, 0) exactly when every line is well formed and names another suffix |
| PasswordCheck.ScanHitIsFirst | modules/password_check.py:29-32 | a reported count is the count of the first line naming the suffix, and every line before it is well formed and names another suffix |
| PasswordCheck.ScanFindsFirstHit | modules/password_check.py:29-32 | when the first line naming the suffix has count n, the scan reports (True, n) |
| PasswordCheck.VerifierMotDePasseCompromis | modules/password_check.py:6-37 | the answer is unknown exactly for a request exception or a non-200 status, and otherwise is the scan of the response for the digest's suffix |
| Text.Strip | modules/password_check.py:32 | `strip()` gives a slice of the string that neither starts nor ends with whitespace, with only whitespace cut on either side |
| Text.ParseInt | modules/password_check.py:32 | `int()` accepts only text whose stripped form ends in a digit, and a negative value only after a leading "-" |
| Text.ParseIntShowNat | modules/commandes.py:19-21 | `int(str(n)) == n`: a natural number written to the orders file reads back as itself |
| Text.RStrip | clean_whitespace.py:8 | `rstrip()` gives a prefix ending in a non-space, and everything it drops is whitespace |
| Text.RStripIdempotent | clean_whitespace.py:8 | stripping trailing whitespace twice is stripping it once |
| Text.Lower | modules/audit.py:149 | `lower()` keeps the length and lower-cases each character |
| Stats.CalculerStatistiques | modules/stats.py:10-27 | `total_commandes` never exceeds the number of orders, and `nombre_produits` is the catalogue's length |
| Stats.Valides | modules/stats.py:17 | the validated orders of the list, and only those |
| Stats.ValidesSums | modules/stats.py:20-22 | the number, revenue and units of the validated orders are the sums over all orders of what each validated order contributes |
| Stats.SummaryCountsOnlyValidated | modules/stats.py:17-24 | only validated orders count: `total_commandes` is their number, `chiffre_affaires` the sum of their totals, `produits_vendus` the sum of their quantities; `nombre_produits` is the catalogue's length |
| Stats.SumsAfterUpdate | modules/stats.py:20-22 | changing one order changes each summary figure by the difference of its contributions |
| Stats.ValiderAddsToSummary | modules/stats.py:20-22 | validating an order adds exactly that order's count, total and quantity to the summary |
| Stats.CreerKeepsOrderFigures | modules/stats.py:17-22 | creating an order, which is still `en_attente`, leaves the summary's order figures unchanged |
| Stats.SoldIds | modules/stats.py:39-46 | the product ids of validated orders, each once: the keys of `ventes` |
| Stats.UnsoldIsZero | modules/stats.py:39-42 | an id no validated order names has sold nothing and earned nothing |
| Stats.JoinMembers | modules/stats.py:46-56 | an entry is in `resultats` exactly when its id was sold, the catalogue knows it, and it carries that product's name and the id's sums |
| Stats.JoinDistinct | modules/stats.py:46-56 | the entries of `resultats` have distinct ids |
| Stats.SortDesc | modules/stats.py:59 | the sort keeps the number of entries |
| Stats.Ranking | modules/stats.py:39-59 | the ranking is non-increasing in quantity sold and a permutation of `resultats` |
| Stats.SortDescPermutation | modules/stats.py:59 | the sort is a permutation of its input |
| Stats.SortDescSorted | modules/stats.py:59 | the sort's output is non-increasing in quantity sold |
| Stats.SortDescStable | modules/stats.py:59 | the sort is stable: for every quantity, the entries selling it keep their input order |
| Stats.SortDescDistinctIds | modules/stats.py:59 | sorting keeps ids distinct |
| Stats.Count | modules/stats.py:40-42 | one turn of the tally loop adds the order's quantity and total to its product's sums, and its id to the key order when new |
| Stats.Tally | modules/stats.py:36-42 | after the loop, the key order is the sold ids, and each key maps to the units and revenue of its validated orders |
| Stats.Collect | modules/stats.py:45-56 | the second loop builds one entry per sold id the catalogue knows, in key order |
| Stats.TopProduits | modules/stats.py:30-61 | `top_produits` returns the first `limite` entries of the ranking |
| Stats.RankingContents | modules/stats.py:39-59 | the ranking is sorted, has no repeated id, is a permutation of `resultats`, and holds exactly the sold ids the catalogue knows, with their sums |
| Stats.TopProperties | modules/stats.py:59-61 | the top list has at most `limite` entries, is sorted, has no repeated id, and each entry describes a sold product the catalogue knows |
| Stats.RankingTies | modules/stats.py:39-59 | ties keep the order in which product ids first appear among validated orders |
| Migration.Decide | migrate_commandes.py:14-31 | the run goes ahead exactly when the file exists and has a header that is not the new one and names "produit_id"; the new header means already migrated |
| Migration.ConvertRow | migrate_commandes.py:56-73 | a row converts exactly when every numeric cell it has converts |
| Migration.Convertir | migrate_commandes.py:52-75 | a failure names a row number between 1 and the number of rows |
| Migration.ConvertRowShape | migrate_commandes.py:56-73 | a converted row gives an order and a line both with id k, the line in order k with the same total, present cells read and missing ones defaulted (`en_attente`, quantity 1, product 0, price 0) |
| Migration.ConvertirStopsAtError | migrate_commandes.py:54-75 | once a row fails to convert, later rows do not matter |
| Migration.ConvertirLength | migrate_commandes.py:54-75 | n old rows give exactly n orders and n lines |
| Migration.ConvertirShape | migrate_commandes.py:52-75 | n rows give n orders and n lines, and order and line k are what row k becomes |
| Migration.ConvertirError | migrate_commandes.py:54-75 | the loop completes exactly when every row converts; otherwise it stops at the first row that does not |
| Migration.LireLigne | migrate_commandes.py:56-73 | one turn of the loop fails exactly when a numeric cell does not convert; otherwise it builds an order and a line both with id k, the line in order k with the same total, present cells read and missing ones defaulted |
| Migration.ConvertirLignes | migrate_commandes.py:50-75 | the loop gives the converted rows, or the first row that raises |
| Migration.Fichiers.Migrer | migrate_commandes.py:11-96 | a stopping check writes nothing; otherwise the backup is the old file, and the orders and lines files are rewritten only when every row converts, after which a second run reports "already migrated" |
| Api.Authorize | api.py:28-82 | every refusal is a 401, or a 403 at the admin gate only; a missing header is a 401 |
| Api.StripBearer | api.py:40-41 | a token starting with "Bearer " loses exactly those 7 characters; any other token is unchanged |
| Api.StripBearerPrefixed | api.py:66-67 | stripping "Bearer " ++ t gives back t |
| Api.AuthorizeSpec | api.py:28-82 | a request passes exactly when it has a non-empty header whose token decodes to claims with a username, and, at the admin gate, a role ("user" when absent) of "admin"; a missing header or a bad token gives 401, a non-admin role 403 |
| Api.AdminGateStricter | api.py:55-82 | the admin gate decides like the token gate, except that it refuses some requests the token gate lets through |
| Api.LoginTokenNotAdmin | api.py:101-107 | a token issued by `login` passes the token gate as its user with role "user" and gets 403 at the admin gate, because user records carry no role |
| Api.Bound | api.py:153 | a Python slice bound: an index in range is kept, one past the end becomes the length, a negative index counts from the end, and one before the start becomes 0 |
| Api.PySlice | api.py:153 | `s[a:b]` holds the items from the first bound on, as many as the second bound is past the first, and none when it is not |
| Api.FloorDiv | api.py:156 | Python's floor division |
| Api.Paginer | api.py:145-158 | a zero `limite` raises and no other does; a page reports the list's length and the requested page and holds no more items than the list |
| Api.PaginerSpec | api.py:145-158 | for a positive `limite`: at most `limite` items, the run starting at (page-1) x limite when that is non-negative, `total` = length whatever the page, `pages` = ceil(length / limite); a zero `limite` raises |
| Api.PaginerCovers | api.py:148-156 | item i is on page i // limite + 1, at position i % limite, and that page is within `pages` |
| Api.PaginerNonPositivePage | api.py:148-153 | for a positive `limite`, page 0 is empty and a negative page is the run ending (-page) x limite items before the end of the list |
| Api.PaginerNegativeLimite | api.py:146-153 | a negative `limite` is not rejected: page 1 with `limite` -1 lists every item but the last |
| Api.AdminStatistiques | api.py:326-336 | pending + validated orders never exceed `total_commandes`, which is the number of orders |
| Api.CountStatutPartition | api.py:330-332 | pending + validated orders never exceed all orders, since with the cancelled ones they add up to all orders |
| Api.AdminStatsSpec | api.py:326-336 | pending + validated <= total orders; `ca_total` sums only validated orders and agrees with the statistics summary, as do the validated count and stock value |
| Api.UsersSafe | api.py:360-372 | `users_safe` has one entry per user, in order, with only id, name, role "user" and creation date |
| Audit.LineHits | modules/audit.py:149-155 | a line gives at most one report per pattern, each for this file, this line and a listed pattern |
| Audit.FileHits | modules/audit.py:147-155 | a file's reports are for this file, at a line number from 1 to its number of lines, and a listed pattern |
| Audit.AllHits | modules/audit.py:142-155 | every report names a listed file and a listed pattern |
| Audit.LineHitsIff | modules/audit.py:150-155 | a line yields a report for a pattern exactly when the detection rule flags it |
| Audit.FileHitsIff | modules/audit.py:147-155 | a file yields a report at line l (1-based) for a pattern exactly when that line is flagged for it |
| Audit.AllHitsIff | modules/audit.py:144-155 | a report names a listed file that exists, a line of it and a pattern exactly when that line is flagged for that pattern |
| Audit.AllHitsOrdered | modules/audit.py:144-155 | reports come by file list, then line, then pattern list |
| Audit.RenderAt | modules/audit.py:153-155 | report k is the message for hit k: file, line number, pattern description |
| Audit.ScanLine | modules/audit.py:149-155 | the inner loop gives the reports of one line, in pattern order |
| Audit.ScanFile | modules/audit.py:147-155 | the line loop gives the reports of one file, numbered from 1 |
| Audit.ScanAll | modules/audit.py:142-155 | the outer loop gives the reports of the listed files that exist, in order |
| Audit.VerifierSecrets | modules/audit.py:125-165 | the report list is that of the three patterns over the three files, and the answer is True exactly when it is empty |
| Audit.SecretsSpec | modules/audit.py:131-165 | the reports are exactly the flagged positions, each once, by file, line and pattern; the answer is True exactly when no position is flagged |
| CleanWhitespace.ReadLines | clean_whitespace.py:5 | `readlines` gives no line for empty text and otherwise at least one, never more lines than characters, and no empty line |
| CleanWhitespace.CleanLines | clean_whitespace.py:8 | the comprehension keeps the number of lines and cleans each one in place |
| CleanWhitespace.CleanFile | clean_whitespace.py:3-15 | the cleaned text is empty exactly when the file was |
| CleanWhitespace.ReadLinesShape | clean_whitespace.py:5 | every line `readlines` gives is non-empty with no inner "\n", and all but the last end in "\n" |
| CleanWhitespace.ConcatReadLines | clean_whitespace.py:5 | writing back the lines `readlines` gave restores the text |
| CleanWhitespace.CleanLinesSpec | clean_whitespace.py:8 | the number of lines is kept; line i becomes rstrip(line i) ++ "\n", so it ends in "\n" with no whitespace before it |
| CleanWhitespace.CleanLinesIdempotent | clean_whitespace.py:8 | cleaning cleaned lines changes nothing |
| CleanWhitespace.FixUpDead | clean_whitespace.py:11-12 | the final-newline fix-up never fires |
| CleanWhitespace.ReadLinesConcatClean | clean_whitespace.py:8-15 | cleaned lines, written and read back, come back unchanged |
| CleanWhitespace.CleanFileSpec | clean_whitespace.py:3-15 | `clean_file` keeps the number of lines, leaves every line clean, and running it on its own output changes nothing |
| FormatAll.Walk | format_all.py:10-15 | every path the walk yields from a directory ends in ".py" |
| FormatAll.PythonFiles | format_all.py:10-15 | every path `python_files(".")` yields ends in ".py" |
| FormatAll.PyIn | format_all.py:13-15 | the paths yielded for one directory's own files are exactly the ".py" names joined to its path |
| FormatAll.WalkReaches | format_all.py:10-15 | the walk yields exactly the ".py" files reached without entering an ignored directory |
| FormatAll.WalkOnlyPython | format_all.py:14-15 | every path yielded ends in ".py" |
| FormatAll.PythonFilesSpec | format_all.py:10-15 | `python_files(".")` yields exactly the ".py" files outside ".git", "__pycache__", "venv" and ".venv", and only ".py" paths |
| FormatAll.IgnoredPruned | format_all.py:12 | a subdirectory named ".git", "__pycache__", "venv" or ".venv" contributes nothing |

## Left out

- Persistence: the CSV reading and writing of `charger_*` and
  `sauvegarder_*` and the file append of `enregistrer_log`. The tables are
  fields of the classes; the snapshot last saved by `produits.py` is a
  ghost field.
- `charger_commandes`'s `username` argument: the source ignores it, and
  `creer_commande` never stores the username, so neither appears.
- Produits.Catalogue.AjouterProduit: the `float(prix)` and `int(quantite)`
  coercions are not modelled; the arguments are already numbers.
- Floating point: prices and totals are integer cents. `float()` in the
  migration is a parameter `toCents`. `round(..., 2)` at api.py:342,348
  is not modelled.
- Migration.ConvertRow: row conversion takes `int()` as a parameter
  `toInt` so that its proofs hold for any integer reader; `Migrer` fixes it
  to `Text.ParseInt`.
- Text.ParseInt: accepts ASCII digits with one sign and surrounding
  whitespace. Python's `int()` also accepts underscores between digits and
  non-ASCII decimal digits; these are not modelled, so the count read by
  `PasswordCheck.Scan` (modules/password_check.py:32) and the cells read by
  `Migration.Migrer` are rejected in those cases where Python accepts them.
- Hashing and randomness: SHA-256 in `hacher_mot_de_passe` and SHA-1 in
  `verifier_mot_de_passe_compromis` are a function parameter and an input
  digest. `generer_salt` (`secrets.token_hex`) is an input.
  `secrets.compare_digest` is plain equality; its constant-time property
  cannot be stated.
- Clocks: `datetime.now()` is a parameter. The log row and the user record
  share one reading, where the source reads the clock twice.
- The HTTP request of the breached-password check: its outcome is an input.
  The URL at modules/password_check.py:22 does not interpolate the prefix
  (the braces are URL-encoded). Every request therefore asks for the same
  range; the model takes the response as given.
- Character classes: `isupper`, `islower`, `isdigit` and `lower` are
  modelled on ASCII letters and digits only. `isspace` follows Python's
  set of whitespace characters.
- Flask and JWT: routing, CORS, JSON bodies and `jwt.encode`/`jwt.decode`
  are left out; decoding is a parameter returning claims, expired or
  invalid. The routes' own field checks and conversions are not modelled:
  `post_produit` answers 400 when a required field is missing, it and
  `put_produit` answer 400 when `float()` or `int()` raises (api.py:179-197,
  215-229), and `post_commande`
  answers 400 on any exception (api.py:262-277). The orders' `statut` is a
  three-value type; the code writes only "en_attente", "validee" and
  "annulee", but `charger_commandes` loads whatever string the file holds
  (modules/commandes.py:25), which the model does not represent.
- api.py:14 imports `creer_admin_initial`, which does not exist in
  modules/auth.py, so the module as written fails to import. The gate is
  modelled as if the import succeeded.
- User records never store a role (modules/auth.py:87-94), so tokens issued
  by `login` never pass the admin gate; `Api.LoginTokenNotAdmin` states
  this.
- Api.PaginerSpec: it states the positive pages; pages 0 and below are
  stated by `Api.PaginerNonPositivePage`. For a negative `limite` only the
  example in `Api.PaginerNegativeLimite` is stated, not a general formula.
- The print statements of every module, and the messages returned next to
  the results; result constructors stand for the messages.
- The bandit, pylint and safety subprocess runners and `audit_complet` in
  modules/audit.py:15-122,168-191: they only run external tools.
- The plotting and dashboard functions of modules/stats.py:64-156
  (matplotlib, seaborn).
- `os.walk`, `os.path.exists` and the file reads and writes of
  clean_whitespace.py, format_all.py and audit.py. A directory tree and a
  map from path to lines stand for the file system. The module-level walk
  of clean_whitespace.py:18-26 uses the same filter as `python_files`.
- Newline translation on reading: a file is its text after universal-newline
  translation.
- The line transform of format_all.py:24-26 is the same text as that of
  `clean_file`; it is modelled once, as `CleanWhitespace.CleanFile`.
- The isort and autopep8 runs of format_all.py:30-34.
- `csv.DictReader` on short rows: a missing cell is treated like a missing
  key. DictReader actually yields None there, which `int()` or `float()`
  would reject.
- gui.py, main.py and the test scripts: user interface and scripts that
  hit a live server.
- Concurrency: the source has none, and the model is sequential.
