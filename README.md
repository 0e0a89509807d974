# SQLiteMan in Dafny

SQLiteMan is a PHP library that writes SQL text for SQLite, plus one
variant for MySQL. It quotes identifiers and values, builds clauses
(WHERE, ON, SET, ORDER BY, upsert, CASE) and whole statements (SELECT,
INSERT, UPDATE, DELETE, CREATE TABLE), and compares a table's live
columns with the columns it should have. This project models that
text-building core and proves properties of it.

The repository holds several generations of the same engine, and each
generation is modelled as written:

- **The abstract `Manager` class** (src/SQLiteMan/Manager.php, with its
  traits `Manager_adds` and `SQL_adds`) and **its trait copy**
  (src/SQLiteManager/Manager_base.php, with the builder
  src/SQLiteManager/SQL.php). They quote names with `"`. Modules
  `SqliteQuote`, `Escape`, `Clauses`, `Statements` and `Builder`. One
  `Manager` datatype has two kinds, because the class accepts
  self-escaping `OParam` objects and the trait does not.
- **The manager base** (src/SQLiteMan/ManagerBase.php). It uses tagged
  `Data`, backtick names, the SQL object src/SQLiteMan/SQL.php, and the
  helpers in src/SQLiteMan/Functions.php. Modules `BacktickQuote`,
  `Data`, `SqlObject`, `ManagerBase`, `ManagerBaseSql` and `Functions`.
  Its PDO driver src/SQLiteManPDO.php is module `Pdo`.
- **The PDO manager** (SQLiteMan/Manager.php). It uses the tagged
  `SQVar` datum (SQVar.php) and the function list
  SQLiteMan/funcList.php. Modules `SqVar`, `PdoManager`,
  `PdoManagerDdl` and `FuncList`.
- **The MySQL manager** (src/MySQLMan/ManagerBase.php). Its builder
  holds a list of tokens. Modules `MySqlBuilder`, `MySqlEscape`,
  `MySqlClauses` and `MySqlStatements`.

Some modules are shared by every generation:

- `Text`: PHP's string built-ins.
- `NameGrammar`: the name-part patterns of the quoters, matched by hand
  the way PCRE reads them.
- `OParam`: `:name` parameters.
- `Affinity`: `typeColumnAffinity`.
- `ColumnDiff`: the `detectColumnDiff` loop.
- `PhpCompare`: `is_numeric` and the loose `==` of two strings.
- `PhpArray`: PHP arrays.

How PHP is modelled:

- **Text.** A PHP string is a `string`, with one `char` per byte.
- **Arrays.** An array is an association list of `(Key, value)` pairs
  in insertion order. Assigning to an existing key keeps its position,
  `unset` removes the entry, and `ksort` sorts by key.
- **Arguments.** A mixed PHP argument is a datatype with one variant
  per accepted kind: null, bool, int, float, string, tagged datum,
  builder and array.
- **Driver quoters.** `quoteVal`, `quoteHex`, `quoteBin` and the
  connection's `quote` are uninterpreted function fields of the manager
  or connection. The one concrete quoter, `SQLiteManPDO::quoteVal`, wraps
  the connection's `quote`. Its BLOB branch `x'…'` is also stated for
  SQLite's own single-quote rule (`Pdo.SqlQuote`).
- **Floats.** A float is kept abstract: it carries the text PHP's
  `strval` gives it.
- **Builders.** The builder objects are classes whose fields the
  mutators update in place. The SQL-function and condition helpers are
  functions on text, because for a string or a scalar argument they start
  from a fresh SQL object. When the name (or the value of `_CAST`) is the
  caller's own `Data::sql` object, `escSQL` hands that object back and the
  helper extends it in place; the `Functions.…OnSql` methods state that
  case on the `SqlObject.Sql` class. Loops that fill a builder or an array are
  methods with loop invariants. Each such method is proved equal to a
  function that states the text it builds, and the properties are
  lemmas about that function.

Two behaviours of the code worth knowing before reading the contracts:

- **Quoting the empty name is not idempotent.** `quoteNameParts(quoteName(s))`
  gives back `quoteName(s)` only for a non-empty `s`. Every part pattern
  needs at least one character between its quotes, so `""` is not
  recognised as a quoted name and is quoted again
  (`SqliteQuote.QuoteNamePartsIdempotentOnQuoted` requires `s != ""` and
  shows the empty case).
- **`detectColumnDiff` returns false only when the query failed, except in
  the PDO manager.** In the abstract class, the trait and the manager base,
  `!$defs` tests a query result object, which is false only when the query
  failed. An empty table info therefore gives a diff with every desired
  column to add. The PDO manager fetches the rows into an array first, so
  it also returns false for an empty table info. The differ takes
  `Option<seq<Row>>`, where `None` is the failed query.

## Model

| member | source | states |
|---|---|---|
| Affinity.FirstMatch | src/SQLiteMan/ManagerBase.php:311-313 | A found affinity belongs to a table entry whose key occurs in the upper-cased type. |
| Affinity.TypeColumnAffinity | src/SQLiteMan/ManagerBase.php:307-315 | The affinity is always one of the five names listed in TYPES. |
| Affinity.TableIsRuleChain | src/SQLiteMan/ManagerBase.php:40-49 | Walking TYPES_AFFINITY in its declared order is the same as applying SQLite's affinity rules in their order. |
| Affinity.ExactBranch | src/SQLiteMan/ManagerBase.php:310 | An exact affinity name returned early is also what the rule chain gives for it. |
| Affinity.AffinityFollowsDocumentedRules | src/SQLiteMan/ManagerBase.php:307-315 | For every declared type the result agrees with section 3.1 of SQLite's "Datatypes In SQLite" (rules 1 to 5). |
| Affinity.IntWins | src/SQLiteMan/ManagerBase.php:35-36 | Any type containing INT is INTEGER, even one that also contains FLOA, such as FLOATING POINT. |
| Affinity.NoKeyIsNumeric | src/SQLiteMan/ManagerBase.php:33-37 | A non-empty type that contains no key of the table is NUMERIC. |
| Affinity.LowerCaseExactName | src/SQLiteMan/ManagerBase.php:307-310 | Case is ignored ("integer" is INTEGER) and the empty type is BLOB. |
| BacktickQuote.QuoteName | src/SQLiteMan/ManagerBase.php:144-146 | The result is wrapped in backticks, undoubling its interior gives the name back, and it forms one quoted part. |
| BacktickQuote.SplitPart | src/SQLiteMan/ManagerBase.php:180-193 | A match splits off a non-empty first part that is a prefix of the name; a quoted part has at least three characters; the rest after the dot is strictly shorter than the name. |
| BacktickQuote.NameParts | src/SQLiteMan/ManagerBase.php:180-193 | For every input the output is `*` or a dot-separated path of backtick-quoted parts, so a name cannot escape its quotes. |
| BacktickQuote.NamePartsFallbacks | src/SQLiteMan/ManagerBase.php:180-193 | `*` is kept as it is and the empty name becomes an empty quoted name. |
| BacktickQuote.NamePartsExcludedStart | src/SQLiteMan/ManagerBase.php:180-193 | A name whose first character may not start a bare part (and is not a backtick) is quoted as a whole. |
| BacktickQuote.NamePartsFixesCanonical | src/SQLiteMan/ManagerBase.php:180-193 | A canonical backtick path without line feeds is returned unchanged: quoting is idempotent on quoted names. |
| BacktickQuote.NamePartsQuoted | src/SQLiteMan/ManagerBase.php:180-193 | Quoting an already quoted non-empty name changes nothing. |
| BacktickQuote.NamePartsDotted | src/SQLiteMan/ManagerBase.php:180-193 | A bare first part is quoted and the text after the first dot is quoted the same way, recursively. |
| BacktickQuote.NamePartsQuotedDotted | src/SQLiteMan/ManagerBase.php:180-193 | A backtick-quoted first part is copied verbatim before the recursively quoted rest. |
| ColumnDiff.DetectColumnDiff | src/SQLiteMan/Manager.php:363-394 | The loop's add, drop and change arrays equal the column-by-column reference definition, with every test a loose `!=`, and the result is false when the query failed. |
| ColumnDiff.DetectColumnDiffFetched | SQLiteMan/Manager.php:274-305 | The PDO manager's variant also returns false for an empty table info, and otherwise gives the same three arrays. |
| ColumnDiff.Read | src/SQLiteMan/Manager.php:370-379 | A definition array is read as given; any other set value reads as every `??` fallback: no type, not null 0, key 0 and a null default. |
| ColumnDiff.RowNamed | src/SQLiteMan/Manager.php:368-385 | A row found for a name carries that name. |
| ColumnDiff.FoldSpec | src/SQLiteMan/Manager.php:363-394 | With distinct row names: a desired entry stays in add exactly when no row names it, a row is in drop exactly when `isset` finds no entry of its name (none, or a null one), and in change exactly when a set entry, read through the `??` fallbacks, differs from the row. |
| ColumnDiff.RowNamedIndex | src/SQLiteMan/Manager.php:368-385 | A row is found exactly when some row carries the name. |
| ColumnDiff.DiffDisjoint | src/SQLiteMan/Manager.php:363-394 | No column name is in two of the three result arrays. |
| ColumnDiff.MatchingColumnUntouched | src/SQLiteMan/Manager.php:363-394 | A live column that already matches its desired definition is in none of add, drop and change. |
| ColumnDiff.NullEntryDropped | src/SQLiteMan/Manager.php:368-386 | A live column whose desired entry is null is not `isset`, so it goes to drop, and the entry leaves add. |
| ColumnDiff.NumericDefaultMatches | src/SQLiteMan/Manager.php:379 | A default whose escaped text is "1" matches a stored default "1.0", since `!=` compares two numeric strings by value. |
| ColumnDiff.TypeCaseFolded | src/SQLiteMan/Manager.php:370 | With all else equal, a declared type "int" matches the live "INT" and differs from "INTEGER": types are upper-cased, then compared exactly. |
| ColumnDiff.BareEntryDefaults | src/SQLiteMan/Manager.php:370-379 | A set entry that is not an array matches a live BLOB column with no flags and no default exactly when the text of the null default is loosely equal to 'NULL'. |
| ColumnDiff.OneMatchingColumn | src/SQLiteMan/Manager.php:363-394 | One row and a set entry of its name that matches it leave add, drop and change all empty. |
| Data.Bin | src/SQLiteMan/Data.php:23-25 | bin builds a binary datum that holds the given bytes. |
| Data.Val | src/SQLiteMan/Data.php:32-34 | val builds a value datum that holds the given scalar. |
| Data.NameOf | src/SQLiteMan/Data.php:41-43 | name builds a name datum that holds the given name. |
| Data.SqlOf | src/SQLiteMan/Data.php:50-52 | sql builds an SQL datum that holds the given text. |
| Data.FactoriesCover | src/SQLiteMan/Data.php:14-52 | Every datum is what its own factory builds from its payload, so the protected constructor adds no kind beyond the four. |
| Builder.JoinTypeChecked | src/SQLiteMan/SQL_adds.php:108-111 | The join type is checked against the list case-insensitively but written as the caller spelled it; an unlisted type is dropped. |
| Builder.OpText | src/SQLiteMan/SQL_adds.php:31-53 | Each comparison writes an operator of one or two symbols, without spaces. |
| Builder.OpTextInjective | src/SQLiteMan/SQL_adds.php:31-53 | Different comparison helpers write different operators. |
| Builder.PatternArgs | src/SQLiteMan/SQL_adds.php:79-101 | The pattern holds the operand and the '%' wildcard, with the wildcard last for begins, first for ends, and on both sides for contains. |
| Builder.PatternText | src/SQLiteMan/SQL_adds.php:79-101 | The LIKE pattern is the escaped operand and the quoted '%' joined by the concatenation operator, in the order the helper names. |
| Builder.Sql.constructor | src/SQLiteManager/SQL.php:20-23 | A new builder holds the given text and the manager that escapes for it. |
| Builder.Sql.Clone | src/SQLiteManager/SQL.php:91-93 | A clone is a fresh builder with the same text and the same manager. |
| Builder.Sql.Parentheses | src/SQLiteManager/SQL.php:34-37 | The parenthesised text is appended and the builder itself is returned; the old text is not wrapped. |
| Builder.Sql.Add | src/SQLiteManager/SQL.php:39-42 | The text is appended after one space, even to an empty buffer; the builder itself is returned. |
| Builder.Sql.Comma | src/SQLiteManager/SQL.php:44-47 | The text is appended after a comma, with no space. |
| Builder.Sql.CommaValue | src/SQLiteManager/SQL.php:49-51 | The escaped value is appended after a comma. |
| Builder.Sql.CommaName | src/SQLiteManager/SQL.php:53-55 | The escaped name is appended after a comma. |
| Builder.Sql.As | src/SQLiteManager/SQL.php:57-59 | ` AS ` and the alias quoted as one identifier are appended. |
| Builder.Sql.Concat | src/SQLiteManager/SQL.php:61-64 | The concatenation operator and the escaped value are appended. |
| Builder.Sql.AddValue | src/SQLiteManager/SQL.php:66-68 | A space and the escaped value are appended. |
| Builder.Sql.AddValues | src/SQLiteManager/SQL.php:75-77 | A space and the comma-joined escaped values are appended. |
| Builder.Sql.AddName | src/SQLiteManager/SQL.php:79-81 | A space and the escaped name are appended. |
| Builder.Sql.AddNames | src/SQLiteManager/SQL.php:83-85 | A space and the name list, with aliases when asked for, are appended. |
| Builder.Sql.CondIs | src/SQLiteMan/SQL_adds.php:23-25 | ` IS ` and the escaped value are appended. |
| Builder.Sql.CondIsNot | src/SQLiteMan/SQL_adds.php:27-29 | ` IS NOT ` and the escaped value are appended. |
| Builder.Sql.CondEqual | src/SQLiteMan/SQL_adds.php:13-16 | Null is compared with IS NULL and any other value with `=` and its escaped text. |
| Builder.Sql.CondDiff | src/SQLiteMan/SQL_adds.php:18-21 | Null is compared with IS NOT NULL and any other value with `<>` and its escaped text. |
| Builder.Sql.CondCompare | src/SQLiteMan/SQL_adds.php:31-53 | The comparison's operator and the escaped value are appended, each after one space. |
| Builder.Sql.CondBetween | src/SQLiteMan/SQL_adds.php:55-61 | BETWEEN (or NOT BETWEEN), the low bound, AND and the high bound are appended in argument order. |
| Builder.Sql.CondInlist | src/SQLiteMan/SQL_adds.php:63-69 | IN (or NOT IN) is followed directly by the parenthesised, comma-joined escaped values. |
| Builder.Sql.CondLike | src/SQLiteMan/SQL_adds.php:71-77 | LIKE (or NOT LIKE) and the escaped pattern are appended. |
| Builder.Sql.CondPattern | src/SQLiteMan/SQL_adds.php:79-101 | LIKE (or NOT LIKE) and the concatenation of the operand with its wildcards are appended. |
| Builder.Sql.Join | src/SQLiteMan/SQL_adds.php:108-111 | The checked join type, JOIN and the aliased table names are appended. |
| Builder.Sql.NaturalJoin | src/SQLiteMan/SQL_adds.php:118-122 | NATURAL always comes first, then the checked join type, JOIN and the names. |
| Builder.Sql.JoinOn | src/SQLiteMan/SQL_adds.php:130-133 | A join followed by ON and the conditions of the ON list. |
| Builder.Sql.JoinUsing | src/SQLiteMan/SQL_adds.php:141-144 | A join followed by USING and the parenthesised column list, written without aliases. |
| Builder.Sql.CrossJoin | src/SQLiteMan/SQL_adds.php:150-152 | CROSS JOIN and the aliased names, never a join type. |
| Escape.AltEscape | src/SQLiteMan/Manager.php:192-198 | A literal is found exactly for null, booleans, numbers and (in the class) parameters: NULL, 1 or 0, and the digits of an integer. |
| Escape.EscapeQuoterUse | src/SQLiteMan/Manager.php:205-228 | An SQL fragment is written verbatim; SQL and literals do not depend on the driver's quoters; every other argument is the chosen quoter applied to its text. |
| Escape.ParamByKind | src/SQLiteMan/Manager.php:192-198 | The class writes a parameter as its own text, while the trait copy quotes that text as a string. |
| Escape.NulFreeText | src/SQLiteMan/Manager.php:215-218 | value_text never hands a NUL byte to quoteVal and agrees with value on text without NUL. |
| Escape.NameTextQuoted | src/SQLiteMan/Manager.php:141-147 | A string name, and in the trait copy also a parameter, always comes out as a `"`-quoted path. |
| Escape.QualifiedName | src/SQLiteMan/Manager.php:156-161 | The name with its alias comes first; the index hint, if any, only follows it. |
| Escape.Names | src/SQLiteMan/Manager.php:171-185 | The loop over the entries gives the comma-joined list of entries, each with an alias when asked for and keyed by a string. |
| Escape.NamesShape | src/SQLiteMan/Manager.php:171-185 | An empty array gives the empty text, and an alias is written only for a string key when aliases are on. |
| Escape.NamesAppend | src/SQLiteMan/Manager.php:171-185 | Appending an entry to the array appends a comma and that entry to the text. |
| Escape.Values | src/SQLiteMan/Manager.php:234-277 | The loop gives the comma-joined escapes of the items, with the escaper of values, values_text or values_hex. |
| Escape.ValuesShape | src/SQLiteMan/Manager.php:234-247 | No items give the empty text, one item its escape alone, and each further item one more comma and its escape. |
| Escape.ColumnDefPrecedence | src/SQLiteMan/Manager.php:327-341 | A default value hides a default expression, and a stored generated expression hides a virtual one. |
| FuncList.NameVars | SQLiteMan/funcList.php:27-34 | One escaped text per argument, in argument order, each the argument's nameVar. |
| FuncList.Concat | SQLiteMan/funcList.php:27-34 | The loop gives the nameVar of every argument, first argument first, joined by the concatenation operator, tagged as SQL. |
| FuncList.ConcatSingle | SQLiteMan/funcList.php:27-34 | A single argument is its nameVar alone, with no operator. |
| FuncList.ConcatAppend | SQLiteMan/funcList.php:27-34 | Each further argument is appended after one concatenation operator, so the arguments keep their order. |
| FuncList.ConcatParams | SQLiteMan/funcList.php:27-34 | A `:param` argument is kept verbatim and any other text is quoted as a name. |
| FuncList.ConcatVerbatim | SQLiteMan/funcList.php:27-34 | The result is SQL: escaping it again as a value, a name or a nameVar writes its text unchanged. |
| Functions.AddIsJoin | src/SQLiteMan/SQL.php:23-26 | A chain of add calls is its tokens joined by single spaces. |
| Functions.Call | src/SQLiteMan/Functions.php:26-39 | A call is the function name, a space and exactly the argument text in parentheses. |
| Functions.FnValues | src/SQLiteMan/Functions.php:26-28 | The argument text between the parentheses is exactly the comma-joined escaped values. |
| Functions.FnNames | src/SQLiteMan/Functions.php:37-39 | The argument text between the parentheses is exactly the name list of the positional parameters, with no alias. |
| Functions.FnShapes | src/SQLiteMan/Functions.php:26-39 | Without parameters the parentheses are empty; a single name is written without alias. |
| Functions.Cond | src/SQLiteMan/Functions.php:51-105 | A condition is the escaped name, the operator and the escaped operand, separated by single spaces. |
| Functions.CondDiff | src/SQLiteMan/Functions.php:46-49 | Null gives IS NOT NULL and every other value `<>` and the escaped value. |
| Functions.CondEqualIsDiff | src/SQLiteMan/Functions.php:41-44 | As written, cond_equal on a non-null value writes the same inequality as cond_diff, such as `<> 1`. |
| Functions.CondEqual | src/SQLiteMan/Functions.php:41-44 | Intended equality: null gives IS NULL and every other value `=` and the escaped value. |
| Functions.Between | src/SQLiteMan/Functions.php:83-89 | BETWEEN (or NOT BETWEEN) with both bounds in argument order, joined by AND. |
| Functions.BetweenText | src/SQLiteMan/Functions.php:83-85 | The chain of add calls of cond_between reads `name BETWEEN a AND b`. |
| Functions.InList | src/SQLiteMan/Functions.php:91-97 | IN (or NOT IN) followed by the comma-joined escaped values in parentheses. |
| Functions.Concat | src/SQLiteMan/Functions.php:184-191 | The loop gives the escaped values of all arguments, in order, joined by the concatenation operator. |
| Functions.ConcatSmall | src/SQLiteMan/Functions.php:184-191 | Two and three arguments are joined by one concatenation operator each. |
| Functions.PercentValue | src/SQLiteMan/Functions.php:107-109 | The wildcard literal is the quoter applied to '%'. |
| Functions.PatternBegins | src/SQLiteMan/Functions.php:107-109 | cond_begins matches the operand followed by the wildcard. |
| Functions.PatternNotEnds | src/SQLiteMan/Functions.php:123-125 | cond_not_ends is NOT LIKE with the wildcard before the operand. |
| Functions.PatternContains | src/SQLiteMan/Functions.php:115-117 | cond_contains puts the wildcard on both sides of the operand. |
| Functions.Cast | src/SQLiteMan/Functions.php:174-176 | CAST, the value, AS and the type, all inside the parentheses. |
| Functions.CondOnSql | src/SQLiteMan/Functions.php:51-105 | On the caller's SQL object as the name, the operator and operand are added to that object itself, whose new text is the condition, and the object returned is it. |
| Functions.CondDiffOnSql | src/SQLiteMan/Functions.php:46-49 | cond_diff on the caller's SQL object extends and returns that object. |
| Functions.CondEqualOnSql | src/SQLiteMan/Functions.php:41-44 | cond_equal (as intended) on the caller's SQL object extends and returns that object. |
| Functions.BetweenOnSql | src/SQLiteMan/Functions.php:83-89 | cond_between on the caller's SQL object extends and returns that object. |
| Functions.InListOnSql | src/SQLiteMan/Functions.php:91-97 | cond_inlist on the caller's SQL object extends and returns that object; only the values list is fresh. |
| Functions.CastOnSql | src/SQLiteMan/Functions.php:174-176 | _CAST of the caller's SQL object appends AS and the type to that object, and the CAST call around it is fresh text. |
| Functions.PatternOnSql | src/SQLiteMan/Functions.php:107-128 | cond_begins, cond_ends, cond_contains and their NOT forms on the caller's SQL object put the LIKE onto that object and return it. |
| Functions.SharedNameChains | src/SQLiteMan/Functions.php:59-69 | Two conditions on one SQL object accumulate in it: `name > a < b`. |
| Functions.WhenShapes | src/SQLiteMan/Functions.php:161-172 | A non-array is a bare WHEN; an empty array is WHEN NULL THEN NULL; one entry pairs its key with its value; two or more use the first two values. |
| Functions.WhenKeyIsQuoted | src/SQLiteMan/Functions.php:161-172 | A string key is written as a quoted literal, not as SQL. |
| Functions.CaseClause | src/SQLiteMan/Functions.php:145-159 | The loop writes CASE, the subject, one WHEN per entry in order, ELSE only for a non-null value, then END. |
| Functions.CaseEmpty | src/SQLiteMan/Functions.php:145-159 | With no subject, no WHEN and no ELSE the result is CASE END. |
| Functions.CaseShape | src/SQLiteMan/Functions.php:145-159 | The subject, each WHEN and the ELSE are each preceded by one space. |
| ManagerBase.Name_ | src/SQLiteMan/ManagerBase.php:180-193 | For every input the result is `*` or a path of backtick-quoted parts. |
| ManagerBase.NameLeadingDot | src/SQLiteMan/ManagerBase.php:180-193 | A name starting with a dot matches neither part pattern and is quoted whole. |
| ManagerBase.TagDecides | src/SQLiteMan/ManagerBase.php:89-119 | value and value_bin agree on tagged data; Data::val changes nothing; Data::bin sends the text to quoteBin; names and SQL are escaped by their tag. |
| ManagerBase.ValueDropsNul | src/SQLiteMan/ManagerBase.php:256-262 | value deletes every NUL byte before calling quoteVal and quotes text without NUL unchanged. |
| ManagerBase.LiteralsIgnoreQuoters | src/SQLiteMan/ManagerBase.php:256-274 | Only strings reach the driver's quoters: null is NULL, booleans are 1 and 0, and numbers are written alike by every driver. |
| ManagerBase.ValuesShape | src/SQLiteMan/ManagerBase.php:125-284 | No items give the empty text, one item its escape, and each further item a comma and its escape. |
| ManagerBase.NameVar | src/SQLiteMan/ManagerBase.php:205-212 | A `:word` string is written as it is, and everything else is escaped as a name. |
| ManagerBase.NameVarQuotes | src/SQLiteMan/ManagerBase.php:205-212 | Everything except a `:word` string comes out as a backtick path; a `:word` comes out as the parameter's own text. |
| ManagerBase.NameList | src/SQLiteMan/ManagerBase.php:222-250 | The loop with a first-entry flag gives the entries joined by ", ", each with its alias when asked for. |
| ManagerBase.NameListShape | src/SQLiteMan/ManagerBase.php:222-231 | An empty list gives the empty text, and an alias appears only for a string key when aliases are on. |
| ManagerBase.NameListAppend | src/SQLiteMan/ManagerBase.php:222-231 | Appending an entry appends ", " and that entry. |
| ManagerBase.ColumnDefPrecedence | src/SQLiteMan/ManagerBase.php:336-354 | A default value hides a default expression, and a stored generated expression hides a virtual one. |
| ManagerBaseSql.Where | src/SQLiteMan/ManagerBase.php:479-499 | The loop with a first-entry flag gives the conditions joined by the connective (AND or OR). |
| ManagerBaseSql.WhereSingle | src/SQLiteMan/ManagerBase.php:479-488 | A string key is compared with the operator even to null, giving `=NULL` with no IS NULL case; an integer key splices the value alone; no entries give the empty text. |
| ManagerBaseSql.WhereAppend | src/SQLiteMan/ManagerBase.php:479-499 | Each further condition adds the connective and that condition, in list order. |
| ManagerBaseSql.Set | src/SQLiteMan/ManagerBase.php:509-519 | The loop gives the assignments joined by commas. |
| ManagerBaseSql.SetSingle | src/SQLiteMan/ManagerBase.php:509-519 | An integer-keyed datum is spliced as it is; an integer key with a plain value names the column by the key's digits; a string key names the column through nameVar. |
| ManagerBaseSql.OrdinalNotParam | src/SQLiteMan/ManagerBase.php:509-519 | The digits of an integer key are never a `:param`, so they are always quoted as a name. |
| ManagerBaseSql.MatchesSafe | src/SQLiteMan/ManagerBase.php:524-531 | A direction the corrected pattern or the simple pattern accepts holds only upper-case letters and white space, so it cannot carry a colon, a quote or any other character into the statement. |
| ManagerBaseSql.GrammarsCompared | src/SQLiteMan/ManagerBase.php:524-531 | The simple pattern accepts a subset of the full one, and the pattern as written accepts exactly the full one plus the colon forms `:ASC` and `:DESC`. |
| ManagerBaseSql.DirText | src/SQLiteMan/ManagerBase.php:533-548 | The direction is written as a space and its upper case only when the pattern accepts it, and with a corrected pattern only safe characters are written. |
| ManagerBaseSql.OrderTerm | src/SQLiteMan/ManagerBase.php:533-548 | A keyed term starts with the quoted name, and everything after the name is letters and white space. |
| ManagerBaseSql.OrderTermWithSafe | src/SQLiteMan/ManagerBase.php:533-548 | The same for either corrected pattern. |
| ManagerBaseSql.OrderColonAsWritten | src/SQLiteMan/ManagerBase.php:524 | As written, the direction `:asc` is accepted and written as ` :ASC`; the corrected term drops it. |
| ManagerBaseSql.OrderLowerCase | src/SQLiteMan/ManagerBase.php:533-548 | Directions are matched after upper-casing and written upper-cased. |
| ManagerBaseSql.NullsFormAccepted | src/SQLiteMan/ManagerBase.php:524-531 | The NULLS forms pass the full pattern, with any white space between the words, and never the simple one. |
| ManagerBaseSql.NullsFinalLineFeed | src/SQLiteMan/ManagerBase.php:524 | Because `$` also matches before a final line feed, a trailing line feed is accepted. |
| ManagerBaseSql.NullsFormRejected | src/SQLiteMan/ManagerBase.php:524 | NULLS needs FIRST or LAST after it, and white space must separate the words. |
| ManagerBaseSql.DescNullsLast | src/SQLiteMan/ManagerBase.php:524 | The core of `DESC NULLS LAST` with any white space is a direction. |
| ManagerBaseSql.OrderUnknown | src/SQLiteMan/ManagerBase.php:533-548 | A direction the pattern rejects, a misspelt one included, is dropped without a trace. |
| ManagerBaseSql.OrderBy | src/SQLiteMan/ManagerBase.php:533-548 | The loop gives the ordering terms joined by ",\n", each checked against the corrected pattern. |
| ManagerBaseSql.Select | src/SQLiteMan/ManagerBase.php:550-562 | The intended select starts with SELECT and the aliased result columns. |
| ManagerBaseSql.SelectOffsetWithoutLimit | src/SQLiteMan/ManagerBase.php:559-560 | As written, an offset without a limit ends the statement in an OFFSET clause with no LIMIT before it, which SQLite's grammar does not allow. |
| ManagerBaseSql.SelectOffsetNeedsLimit | src/SQLiteMan/ManagerBase.php:550-562 | The corrected select ignores an offset without a limit, and agrees with the code as written whenever a limit is given or no offset is. |
| ManagerBaseSql.Upsert | src/SQLiteMan/ManagerBase.php:649-664 | The clause always starts with ON CONFLICT, and without an update set it ends in DO NOTHING. |
| ManagerBaseSql.UpsertIgnoresOrphanWhere | src/SQLiteMan/ManagerBase.php:649-664 | A conflict WHERE without its column list is dropped, and with neither columns nor update set the clause is ON CONFLICT DO NOTHING. |
| ManagerBaseSql.CreateTable | src/SQLiteMan/ManagerBase.php:410-432 | The statement is the head, the column definitions one per line, the ksorted PRIMARY KEY, the constraints and the table options. |
| ManagerBaseSql.AppendColumns | src/SQLiteMan/ManagerBase.php:410-432 | The column loop appends the definitions separated by ",\n" and collects the key array of the reference definition. |
| ManagerBaseSql.PkPartPresent | src/SQLiteMan/ManagerBase.php:410-432 | The PRIMARY KEY clause is written exactly when some column has a non-zero ordinal and no autoincrement. |
| ManagerBaseSql.AutoincrementKeyOnce | src/SQLiteMan/ManagerBase.php:352-426 | An autoincrement key column declares its key only in its own definition, which ends with PRIMARY KEY AUTOINCREMENT; no entry of the key array names it. |
| ManagerBaseSql.DetectColumnDiff | src/SQLiteMan/ManagerBase.php:682-713 | The manager base's differ is the shared reference diff, with defaults compared through this manager's value and a missing default read as null. |
| ManagerBaseSql.FloatDefaultUnchanged | src/SQLiteMan/ManagerBase.php:687-705 | A column with the float default 1 against a live column whose stored default is "1.0" is in none of add, drop and change. |
| ManagerBaseSql.BareEntryUnchanged | src/SQLiteMan/ManagerBase.php:687-705 | A column given by a bare string against a live BLOB column with no flags and no default is in none of add, drop and change. |
| ManagerBaseSql.NullEntryDrops | src/SQLiteMan/ManagerBase.php:687-705 | A live column whose desired entry is null is dropped, whatever its type, flags and default, and nothing is added or changed. |
| MySqlBuilder.NonEmpty | src/MySQLMan/ManagerBase.php:132-162 | A text becomes no token exactly when it is empty, and otherwise the one token holding it. |
| MySqlBuilder.Piece | src/MySQLMan/ManagerBase.php:132-162 | add pushes at most one token. |
| MySqlBuilder.Builder.constructor | src/MySQLMan/ManagerBase.php:169-172 | A builder started from the empty text holds no tokens. |
| MySqlBuilder.Builder.Add | src/MySQLMan/ManagerBase.php:132-162 | The builder's tokens gain exactly what add pushes, at the end, and no empty token is ever stored. |
| MySqlBuilder.Builder.Clear | src/MySQLMan/ManagerBase.php:450-453 | clear leaves no tokens. |
| MySqlBuilder.Builder.Parenthesis | src/MySQLMan/ManagerBase.php:276-280 | The whole text in parentheses becomes the only token. |
| MySqlBuilder.Builder.Not | src/MySQLMan/ManagerBase.php:311-315 | NOT followed by the parenthesised old text. |
| MySqlBuilder.Builder.Logic | src/MySQLMan/ManagerBase.php:403-444 | The operator token is appended, then what add pushes for the SQL unless the SQL is null (or omitted). |
| MySqlBuilder.PieceNotEmpty | src/MySQLMan/ManagerBase.php:132-162 | add never pushes an empty token. |
| MySqlBuilder.PieceShapes | src/MySQLMan/ManagerBase.php:132-162 | The empty string and an empty builder add nothing; null adds NULL, booleans TRUE or FALSE, an integer its digits, a builder its text. |
| MySqlBuilder.PieceArray | src/MySQLMan/ManagerBase.php:132-162 | An array is added as one token: its values' texts joined by ",". |
| MySqlBuilder.TextEmptyIff | src/MySQLMan/ManagerBase.php:455-461 | The text of a token list without empty tokens is empty exactly when the list is, and is at least as long as its first token. |
| MySqlBuilder.TextPush | src/MySQLMan/ManagerBase.php:132-162 | After an add the text gains one space and the new token, or nothing. |
| MySqlBuilder.NotText | src/MySQLMan/ManagerBase.php:311-315 | not writes NOT, one space and the parenthesised text. |
| MySqlEscape.NumericIntText | src/MySQLMan/ManagerBase.php:91-125 | The text of every integer is numeric. |
| MySqlEscape.NumericDecimal | src/MySQLMan/ManagerBase.php:91-125 | A signed decimal with fraction and exponent is numeric. |
| MySqlEscape.NumericNotHex | src/MySQLMan/ManagerBase.php:91-125 | A hexadecimal literal is not numeric. |
| MySqlEscape.NumericDanglingExponent | src/MySQLMan/ManagerBase.php:91-125 | An exponent marker with no digits after it is not numeric. |
| MySqlEscape.EscapeValueString | src/MySQLMan/ManagerBase.php:91-125 | A string is written unquoted only when it is numeric and numeric mode is on; every other string goes through the connection's quote. |
| MySqlEscape.EscapeValueShapes | src/MySQLMan/ManagerBase.php:91-125 | Null, the booleans, integers and builders are written as they are, a finite float as its `strval` text, a non-finite float through quote when numeric mode is off, and empty arrays or objects give the empty text. |
| MySqlEscape.Explode | src/MySQLMan/ManagerBase.php:66-84 | explode always gives at least one piece. |
| MySqlEscape.ExplodeJoin | src/MySQLMan/ManagerBase.php:66-84 | Exploding and imploding with the same character gives the text back, and no piece holds that character. |
| MySqlEscape.JoinExplode | src/MySQLMan/ManagerBase.php:66-84 | Imploding pieces that do not hold the character and exploding again gives the pieces back. |
| MySqlEscape.EscapeNameStrip | src/MySQLMan/ManagerBase.php:66-84 | Escaping only wraps parts in backticks and deletes the backticks inside: deleting every backtick from the result gives the name with its backticks deleted. |
| MySqlEscape.PartTextQuoted | src/MySQLMan/ManagerBase.php:66-84 | A part without dots is escaped to `*` or one backtick-quoted part with no backtick or dot inside. |
| MySqlEscape.EscapeNameParts | src/MySQLMan/ManagerBase.php:66-84 | Split at its dots, an escaped name is a sequence of parts that are each `*` or backtick-quoted with nothing to escape inside. |
| MySqlEscape.EscapeNameBacktick | src/MySQLMan/ManagerBase.php:66-84 | A backtick inside a name is deleted, not doubled, and null is the empty quoted name. |
| MySqlEscape.EscapeNameTwoParts | src/MySQLMan/ManagerBase.php:66-84 | A name with one dot is escaped part by part around that dot. |
| MySqlEscape.EscapeNameStar | src/MySQLMan/ManagerBase.php:66-84 | The string `*` passes unquoted, alone and as the last part of a dotted name. |
| MySqlEscape.ObjectStarQuoted | src/MySQLMan/ManagerBase.php:66-84 | The `*` test is strict identity: an object whose text is `*` is quoted as "`*`" and keeps its AS alias, while the string `*` stays bare and drops the alias. |
| MySqlEscape.EscapeNameArray | src/MySQLMan/ManagerBase.php:66-84 | An array is joined with "." and then escaped as that text. |
| MySqlEscape.NameAlias | src/MySQLMan/ManagerBase.php:678-688 | A non-empty string alias is written as AS and the alias in backticks, exactly when the escaped name does not end in `*`; the name is tested against `*` only when it is a string or an array. |
| MySqlEscape.NoAlias | src/MySQLMan/ManagerBase.php:572-688 | Without an alias, or with an integer one, value and name give only the escaped text. |
| MySqlEscape.ValueAlias | src/MySQLMan/ManagerBase.php:572-582 | A value with a string alias is written `<value> AS `<alias>``. |
| MySqlEscape.Names | src/MySQLMan/ManagerBase.php:690-699 | The loop gives the one token of the builder built from the array of name builders. |
| MySqlEscape.Values | src/MySQLMan/ManagerBase.php:652-660 | The loop gives the one token of the builder built from the array of value builders. |
| MySqlEscape.ValuesShape | src/MySQLMan/ManagerBase.php:652-660 | Two listed values are joined by "," with no space, and an empty list gives no token. |
| MySqlEscape.Hex | src/MySQLMan/ManagerBase.php:614-617 | A hex literal is returned exactly when the text is hex digits, and it is `0x` followed by the text. |
| MySqlEscape.HexAccepts | src/MySQLMan/ManagerBase.php:614-617 | Hex digits of either case pass, also with one trailing line feed. |
| MySqlEscape.HexRejects | src/MySQLMan/ManagerBase.php:614-617 | The empty text, null and a text already starting with `0x` give null. |
| MySqlEscape.ValueNotNull | src/MySQLMan/ManagerBase.php:592-594 | Null is escaped as the quoted empty string rather than NULL; every other value as value escapes it. |
| MySqlEscape.ValueNumeric | src/MySQLMan/ManagerBase.php:604-606 | Anything is_numeric rejects is written as 0; a numeric string, float or integer is written unquoted; an alias follows as for value. |
| MySqlClauses.PieceSelf | src/MySQLMan/ManagerBase.php:132-162 | Adding a builder pushes its text as one token, or nothing when the text is empty. |
| MySqlClauses.NameOne | src/MySQLMan/ManagerBase.php:678-688 | A plain column name without alias is one token, its escaped text. |
| MySqlClauses.AddValue | src/MySQLMan/ManagerBase.php:326-328 | add_value appends what add pushes for the value's builder. |
| MySqlClauses.ValueOne | src/MySQLMan/ManagerBase.php:326-328 | A value whose escaped text is not empty is added as that one token. |
| MySqlClauses.Combine | src/MySQLMan/ManagerBase.php:764-789 | The array_shift loop gives the first condition followed by operator and condition for each further one, parenthesised when there are several. |
| MySqlClauses.ChainStep | src/MySQLMan/ManagerBase.php:403-444 | Adding an operator and a condition to a non-empty builder adds both after single spaces. |
| MySqlClauses.ChainText | src/MySQLMan/ManagerBase.php:764-789 | Conditions with non-empty texts are written one after another, separated by the operator in spaces. |
| MySqlClauses.CombinedText | src/MySQLMan/ManagerBase.php:764-789 | Two or more non-empty conditions give "(c1 OP c2 OP …)". |
| MySqlClauses.Where | src/MySQLMan/ManagerBase.php:764-789 | The method's tokens are those of the where builder for the given conditions and operator. |
| MySqlClauses.WhereEquality | src/MySQLMan/ManagerBase.php:194-201 | A string key is compared with IS NULL to null and with `=` to any other value. |
| MySqlClauses.WhereText | src/MySQLMan/ManagerBase.php:764-789 | Two or more non-empty conditions are joined by the operator inside parentheses. |
| MySqlClauses.WhereBuilder | src/MySQLMan/ManagerBase.php:764-789 | A builder under an integer key is used as the condition itself, and an empty array gives TRUE. |
| MySqlClauses.On | src/MySQLMan/ManagerBase.php:795-820 | The method's tokens are those of the on builder for the given conditions. |
| MySqlClauses.OnColumns | src/MySQLMan/ManagerBase.php:795-820 | A string key and its string value are both escaped as column names, never as a value. |
| MySqlClauses.OnText | src/MySQLMan/ManagerBase.php:795-820 | Two or more non-empty ON conditions are joined by AND inside parentheses. |
| MySqlClauses.Sets | src/MySQLMan/ManagerBase.php:701-716 | The method's tokens are those of the sets builder for the assignments. |
| MySqlClauses.SetsNull | src/MySQLMan/ManagerBase.php:701-716 | Unlike where, sets writes null as `= NULL`, never IS NULL. |
| MySqlClauses.SetOne | src/MySQLMan/ManagerBase.php:701-716 | A string key and a value are written `name = value`. |
| MySqlClauses.SetsAppend | src/MySQLMan/ManagerBase.php:701-716 | Each further assignment is appended after one ",", with no space. |
| MySqlClauses.OrderEntries | src/MySQLMan/ManagerBase.php:718-742 | One text per array entry, in array order. |
| MySqlClauses.OrderByDirection | src/MySQLMan/ManagerBase.php:718-742 | A direction of ASC or DESC in any case is written as the caller spelled it. |
| MySqlClauses.OrderByNoDirection | src/MySQLMan/ManagerBase.php:718-742 | Any other direction, or none, is dropped. |
| MySqlClauses.OrderByAppend | src/MySQLMan/ManagerBase.php:718-742 | Each further array entry is appended after one ",". |
| MySqlClauses.OrderEntryKeys | src/MySQLMan/ManagerBase.php:718-742 | A string key sorts that column by its own direction; an integer key sorts its value by the outer direction. |
| MySqlClauses.CaseWhen | src/MySQLMan/ManagerBase.php:505-521 | The method's tokens are those of the reference CASE expression. |
| MySqlClauses.AddWord | src/MySQLMan/ManagerBase.php:505-521 | A keyword is appended as one token. |
| MySqlClauses.AddWhens | src/MySQLMan/ManagerBase.php:505-521 | The foreach appends WHEN … THEN … for each entry, in order. |
| MySqlClauses.AddWhen | src/MySQLMan/ManagerBase.php:505-521 | One WHEN … THEN … is appended. |
| MySqlClauses.CaseWhenShape | src/MySQLMan/ManagerBase.php:505-521 | With no conditions the result is NULL; otherwise it starts with CASE and ends with END. |
| MySqlClauses.WhenPartsOne | src/MySQLMan/ManagerBase.php:505-521 | One condition with an integer result is WHEN, the condition, THEN and the digits. |
| MySqlClauses.CaseWhenBare | src/MySQLMan/ManagerBase.php:505-521 | With no subject and no default the WHEN parts stand alone between CASE and END. |
| MySqlClauses.CaseWhenOne | src/MySQLMan/ManagerBase.php:505-521 | One condition, no subject, no default: `CASE WHEN c THEN v END`. |
| MySqlStatements.AddClause | src/MySQLMan/ManagerBase.php:986-1018 | A clause keyword and the clause builder's text are appended. |
| MySqlStatements.AddParenthesis | src/MySQLMan/ManagerBase.php:296-298 | The parenthesised text of the given builder is appended as one token. |
| MySqlStatements.Parenthesised | src/MySQLMan/ManagerBase.php:276-280 | A builder folded by parenthesis reads "(" + text + ")". |
| MySqlStatements.AddLimit | src/MySQLMan/ManagerBase.php:1006-1016 | The LIMIT part is appended: nothing without a numeric limit, otherwise LIMIT and the limit, preceded by the offset and a comma when that is numeric. |
| MySqlStatements.AddDuplicate | src/MySQLMan/ManagerBase.php:830-843 | ON DUPLICATE KEY UPDATE and the assignments are appended only for a non-empty array. |
| MySqlStatements.Select | src/MySQLMan/ManagerBase.php:986-1018 | The tokens of the select are its columns, then FROM, WHERE, GROUP BY, HAVING, ORDER BY and LIMIT, each only when given. |
| MySqlStatements.AddNames | src/MySQLMan/ManagerBase.php:342-344 | A keyword and the names are appended when the argument is given, otherwise nothing. |
| MySqlStatements.AddWhere | src/MySQLMan/ManagerBase.php:380-383 | A keyword and the AND-joined conditions are appended when the argument is given, otherwise nothing. |
| MySqlStatements.AddOrder | src/MySQLMan/ManagerBase.php:385-387 | ORDER BY and the order terms are appended when the argument is given, otherwise nothing. |
| MySqlStatements.Update | src/MySQLMan/ManagerBase.php:900-922 | The tokens of the update are the table, SET and the assignments, then WHERE, ORDER BY and LIMIT, each only when given. |
| MySqlStatements.Delete | src/MySQLMan/ManagerBase.php:924-939 | The tokens of the delete are the table, then WHERE, ORDER BY and LIMIT, each only when given; no offset is ever written. |
| MySqlStatements.KeysOf | src/MySQLMan/ManagerBase.php:830-843 | array_keys: the row's keys as the values of a list, in the row's order. |
| MySqlStatements.RowValues | src/MySQLMan/ManagerBase.php:830-843 | One value per listed column, in column order, each the row's value under that column or null. |
| MySqlStatements.PickValues | src/MySQLMan/ManagerBase.php:830-843 | The foreach collects exactly the row's values for the listed columns. |
| MySqlStatements.StartInsert | src/MySQLMan/ManagerBase.php:830-843 | A fresh builder holding INSERT INTO, the table and the parenthesised column names. |
| MySqlStatements.Insert | src/MySQLMan/ManagerBase.php:830-843 | The tokens of the insert are its head, VALUES on a new line, the parenthesised values and the optional ON DUPLICATE KEY UPDATE. |
| MySqlStatements.RowTexts | src/MySQLMan/ManagerBase.php:853-870 | One parenthesised tuple per row, in row order. |
| MySqlStatements.TuplesPiece | src/MySQLMan/ManagerBase.php:853-870 | Adding the array of tuple builders adds their texts joined by ",". |
| MySqlStatements.InsertMulti | src/MySQLMan/ManagerBase.php:853-870 | The tokens are the head (columns given or taken from the first row), VALUES and every row's tuple joined by ",", then the duplicate part. |
| MySqlStatements.RowsOf | src/MySQLMan/ManagerBase.php:853-870 | The foreach over the rows gives each row's tuple, in order. |
| MySqlStatements.InsertSelect | src/MySQLMan/ManagerBase.php:880-888 | The tokens are the head, the select and the duplicate part. |
| MySqlStatements.ClauseSkipped | src/MySQLMan/ManagerBase.php:986-1018 | Null and the empty array count as not given. |
| MySqlStatements.LimitShapes | src/MySQLMan/ManagerBase.php:1006-1016 | LIMIT is written exactly when the limit is numeric; without it the offset is ignored; a numeric offset is written first, before a comma. |
| MySqlStatements.SelectEmptyArrays | src/MySQLMan/ManagerBase.php:986-1018 | An empty GROUP BY, HAVING or ORDER BY array is dropped like null. |
| MySqlStatements.SelectBare | src/MySQLMan/ManagerBase.php:986-1018 | With no WHERE, GROUP BY, HAVING or ORDER BY, a select is its columns, its table if any, and its limit. |
| MySqlStatements.SelectText | src/MySQLMan/ManagerBase.php:986-1018 | A column and a table with limit and offset give `SELECT c FROM t LIMIT o,l`. |
| MySqlStatements.WhereNullOne | src/MySQLMan/ManagerBase.php:764-789 | A single `column => null` condition is one token, `column IS NULL`. |
| MySqlStatements.DeleteBare | src/MySQLMan/ManagerBase.php:924-939 | Without ORDER BY, a delete is its table, its condition if any, and its limit. |
| MySqlStatements.DeleteText | src/MySQLMan/ManagerBase.php:924-939 | A one-entry condition and a limit give `DELETE FROM t WHERE k IS NULL LIMIT l`. |
| MySqlStatements.UpdateText | src/MySQLMan/ManagerBase.php:900-922 | One assignment and nothing else gives `UPDATE t SET a = v`. |
| MySqlStatements.FindFirst | src/MySQLMan/ManagerBase.php:830-843 | Reading a key gives the value of its first entry. |
| MySqlStatements.FindMissing | src/MySQLMan/ManagerBase.php:830-843 | A key with no entry reads as null. |
| MySqlStatements.DefaultColumns | src/MySQLMan/ManagerBase.php:830-843 | Without a column list the VALUES are the row's own values, in the row's order. |
| MySqlStatements.MissingColumn | src/MySQLMan/ManagerBase.php:830-843 | A listed column the row lacks is inserted as NULL. |
| MySqlStatements.NamesOne | src/MySQLMan/ManagerBase.php:690-699 | A single name under index 0 is its escaped text, with no alias. |
| MySqlStatements.ValuesOne | src/MySQLMan/ManagerBase.php:652-660 | A single integer value is its digits, with no alias. |
| MySqlStatements.InsertText | src/MySQLMan/ManagerBase.php:830-843 | A one-column row with the default columns gives `INSERT INTO t (a)`, VALUES on a new line, and `(x)`. |
| MySqlStatements.InsertMultiAppend | src/MySQLMan/ManagerBase.php:853-870 | Each further row is appended after one ",". |
| MySqlStatements.DuplicateShapes | src/MySQLMan/ManagerBase.php:830-843 | ON DUPLICATE KEY UPDATE appears only for a non-empty array of assignments, and then writes them. |
| NameGrammar.QuoteWith | src/SQLiteMan/Manager.php:110-112 | The result is wrapped in the quote character and undoubling its interior gives the text back. |
| NameGrammar.ScanInterior | src/SQLiteMan/Manager.php:114 | The scan of a quoted part's interior stops at the end or at a quote that is not doubled. |
| NameGrammar.MatchTail | src/SQLiteMan/Manager.php:114 | The tail `(?:\.(.*))?$` matches nothing or one final line feed, and otherwise a dot and a rest without line feeds that is shorter than the text. |
| NameGrammar.SplitQuoted | src/SQLiteMan/Manager.php:114 | A quoted first part is a prefix of at least three characters, and the rest is shorter than the text. |
| NameGrammar.Find | src/SQLiteMan/Manager.php:114 | The index of the first occurrence of the character at or after the start, or the end of the text. |
| NameGrammar.SplitBracket | src/SQLiteMan/Manager.php:114 | A bracketed first part is a prefix of at least three characters, and the rest is shorter than the text. |
| NameGrammar.SplitBare | src/SQLiteMan/Manager.php:114 | A bare part matches exactly when its first character is allowed and the text after it is empty or a proper tail; the part has no dot after its first character. |
| NameGrammar.ScanDoubled | src/SQLiteMan/Manager.php:114 | Scanning a doubled interior stops at the quote that closes it, whatever follows. |
| NameGrammar.QuoteWithPath | src/SQLiteMan/Manager.php:110-112 | Every quoted text is a one-part quoted path whose interior scan reaches its closing quote. |
| NameGrammar.QuotedPathCons | src/SQLiteMan/Manager.php:120-133 | A quoted part, a dot and a quoted path form a quoted path. |
| NameGrammar.SplitQuotedPart | src/SQLiteMan/Manager.php:120-133 | The first part found of a quoted name is itself a one-part quoted path. |
| OParam.WordsToEndSpec | src/SQLiteMan/OParam.php:21-24 | The scan accepts exactly word characters, with at most one line feed and only at the very end. |
| OParam.Make | src/SQLiteMan/OParam.php:21-24 | An accepted parameter stores exactly the given text. |
| OParam.MakeAccepts | src/SQLiteMan/OParam.php:21-24 | make accepts exactly a colon followed by one or more word characters; since `$` also matches before a final line feed, one trailing line feed is accepted and kept. |
| OParam.AcceptedShape | src/SQLiteMan/OParam.php:21-24 | An accepted parameter starts with a colon and a word character and holds no quote, bracket, dot, space or comma. |
| OParam.ToSql | src/SQLiteMan/OParam.php:26-28 | The text put into SQL is the parameter itself: making a parameter from it gives the same parameter back. |
| OParam.MakeRoundTrip | src/SQLiteMan/OParam.php:26-32 | The text of a made parameter, as a string and as SQL, is the text it was made from. |
| Pdo.HexDigit | src/SQLiteManPDO.php:32-37 | A bin2hex digit is 0-9 or a lower-case a-f. |
| Pdo.Bin2Hex | src/SQLiteManPDO.php:32-37 | bin2hex gives two lower-case hex digits per byte. |
| Pdo.HexDecode | src/SQLiteManPDO.php:32-37 | The reference decoder reads the digits back two at a time. |
| Pdo.DigitValue | src/SQLiteManPDO.php:32-37 | Each digit reads back as its value. |
| Pdo.HexRoundTrip | src/SQLiteManPDO.php:32-37 | The hex text decodes back to the bytes it came from. |
| Pdo.SqlQuote | src/SQLiteManPDO.php:32-37 | SQLite's own quoting wraps the text in single quotes. |
| Pdo.HexQuoted | src/SQLiteManPDO.php:32-37 | Hex digits never need their quotes doubled. |
| Pdo.QuoteValHex | src/SQLiteManPDO.php:32-37 | Text holding a NUL byte becomes the BLOB literal `x'<hex>'`. |
| Pdo.QuoteValHexIff | src/SQLiteManPDO.php:32-37 | The result starts with `x` exactly when the text holds a NUL byte. |
| Pdo.ValueNeverHex | src/SQLiteManPDO.php:32-37 | Through the manager base's value, which deletes every NUL first, this driver always quotes the text without NUL and never takes the hex branch. |
| Pdo.ColumnIndex | src/SQLiteManPDO.php:68-75 | The index found is the first column whose name is loosely equal (PHP `==`) to the one asked for; none is returned only when no column name is. |
| SqlObject.Sql.constructor | src/SQLiteMan/SQL.php:9-11 | The object holds the given SQL text. |
| SqlObject.Sql.AsData | src/SQLiteMan/SQL.php:9-11 | The object is an SQL datum holding its text. |
| SqlObject.Sql.Not | src/SQLiteMan/SQL.php:13-16 | "NOT " is put in front of the text, with no parentheses added, and the same object is returned. |
| SqlObject.Sql.Parentheses | src/SQLiteMan/SQL.php:18-21 | The whole text is wrapped in parentheses and the same object is returned. |
| SqlObject.Sql.Add | src/SQLiteMan/SQL.php:23-26 | A space and the text are appended, even to an empty text, and the same object is returned. |
| SqliteQuote.QuoteName | src/SQLiteMan/Manager.php:110-112 | The result is wrapped in double quotes, undoubling its interior gives the name back, and it forms one quoted part. |
| SqliteQuote.SplitPart | src/SQLiteMan/Manager.php:114 | A match splits off a non-empty first part that is a prefix of the name; a quoted or bracketed part has at least three characters; the rest is shorter than the name. |
| SqliteQuote.QuoteNameParts | src/SQLiteMan/Manager.php:120-133 | For every input the output is `*` or a dot-separated path of `"`-quoted parts. |
| SqliteQuote.QuoteNamePartsFallbacks | src/SQLiteMan/Manager.php:120-133 | `*` passes unchanged; the empty name and a name starting with a dot are quoted whole. |
| SqliteQuote.QuoteNamePartsFixesCanonical | src/SQLiteMan/Manager.php:120-133 | A canonically quoted path without line feeds is returned unchanged. |
| SqliteQuote.QuoteNamePartsIdempotentOnQuoted | src/SQLiteMan/Manager.php:120-133 | Quoting an already quoted non-empty name changes nothing; the quoted empty name is quoted once more. |
| SqliteQuote.QuoteNamePartsConverts | src/SQLiteMan/Manager.php:120-133 | A backtick- or single-quoted part is quoted with `"` after its own doubling is undone. |
| SqliteQuote.QuoteNamePartsBracket | src/SQLiteMan/Manager.php:120-133 | A bracketed part is quoted with `"`, its interior taken as it is. |
| SqliteQuote.QuoteNamePartsDotted | src/SQLiteMan/Manager.php:120-133 | A bare first part is quoted and the text after its dot is quoted the same way. |
| SqVar.Strval | SQVar.php:29-42 | strval has no result for an SQVar, which has no `__toString`. |
| SqVar.V | SQVar.php:29-32 | v keeps a scalar or null, replaces an object by its text, tags the value as type 0, and fails only for an SQVar. |
| SqVar.N | SQVar.php:39-42 | n keeps an array for a dotted name, replaces anything else by its text, tags it as type 1, and fails only for an SQVar. |
| SqVar.S | SQVar.php:49-51 | s tags the SQL text as type 2 and stores it unchanged. |
| SqVar.FactoriesBuild | SQVar.php:19-51 | Everything a factory returns is a well-formed SQVar, and the getters return what it stored. |
| SqVar.BuiltByFactory | SQVar.php:19-59 | Every well-formed SQVar is what a factory returns given its stored data, and its type is one of the three constants. |
| PdoManager.NamePath | SQLiteMan/Manager.php:483-500 | A string name comes out as `*` or a path of backtick-quoted parts. |
| PdoManager.NameVarText | SQLiteMan/Manager.php:512-526 | A `:word` text is kept as it is, and every other text is escaped as a name. |
| PdoManager.NameVar | SQLiteMan/Manager.php:512-526 | An SQVar or an array goes through name, a scalar or object through the text rule for its strval. |
| PdoManager.NameVarExceptParams | SQLiteMan/Manager.php:512-526 | Only a `:word` text is left unquoted and comes back as the parameter's own text; any other text equals name and is a backtick path. |
| PdoManager.NameFallbacks | SQLiteMan/Manager.php:483-500 | `*` passes unchanged, and null is the empty name in backticks. |
| PdoManager.NameArray | SQLiteMan/Manager.php:483-500 | An array is its items, each escaped as a name, joined by dots. |
| PdoManager.NameDotStart | SQLiteMan/Manager.php:483-500 | Unlike the manager base, a bare part may start with a dot, so a leading dot is kept in the first part and the name is still split at its next dot. |
| PdoManager.PlainNameQuoted | SQLiteMan/Manager.php:483-500 | A name with no dot, backtick or line feed, other than `*`, is simply quoted. |
| PdoManager.NameIgnoresConnection | SQLiteMan/Manager.php:483-500 | Without SQVars inside, name never depends on the connection. |
| PdoManager.NameVarIgnoresConnection | SQLiteMan/Manager.php:512-526 | Without SQVars inside, nameVar never depends on the connection. |
| PdoManager.ValueShapes | SQLiteMan/Manager.php:572-578 | null is NULL, booleans are 1 and 0, integers their digits, and only a text reaches the connection's quote, unchanged. |
| PdoManager.FactoriesTransparent | SQLiteMan/Manager.php:589-600 | Tagging through a factory changes nothing: v dispatches as value, n as name, and s is written verbatim by value, name and nameVar alike. |
| PdoManager.UnknownTag | SQLiteMan/Manager.php:589-600 | A tag other than the three constants dispatches to the empty text, and no factory builds one. |
| PdoManager.ValueAll | SQLiteMan/Manager.php:580-583 | One escaped value per item, in order. |
| PdoManager.ValuesShape | SQLiteMan/Manager.php:580-583 | No items give the empty text, one item its value, and each further item a comma and its value. |
| PdoManager.NameList | SQLiteMan/Manager.php:539-566 | The loop collects one entry per item and joins them with ",". |
| PdoManager.NameListShape | SQLiteMan/Manager.php:539-546 | Only a string key adds an alias, and each further entry adds "," and no space. |
| PdoManager.Fn | SQLiteMan/Manager.php:611-614 | A call is the name followed by the comma-joined nameVar of each argument, in parentheses, without aliases. |
| PdoManager.FnVal | SQLiteMan/Manager.php:616-619 | Between the name's parenthesis and the closing one lies exactly the comma-joined escaped values. |
| PdoManager.Where | SQLiteMan/Manager.php:451-467 | The loop collects one condition per entry and joins them with AND or OR. |
| PdoManager.WhereSingle | SQLiteMan/Manager.php:451-458 | The right-hand side is escaped as an identifier, not as a literal: a text is put in backticks and null becomes the empty name, not NULL; an integer key gives the right side alone. |
| PdoManager.WhereIgnoresConnection | SQLiteMan/Manager.php:451-467 | Without SQVars the connection never quotes anything in a WHERE list. |
| PdoManager.WhereAppend | SQLiteMan/Manager.php:451-467 | Each further condition adds the connective and that condition, in list order. |
| PdoManager.SetList | SQLiteMan/Manager.php:442-449 | The loop collects one assignment per entry and joins them with ",". |
| PdoManager.SetSingle | SQLiteMan/Manager.php:442-449 | An integer key is quoted as a name too, and a `:param` on the right is kept. |
| PdoManager.SetIgnoresConnection | SQLiteMan/Manager.php:442-449 | Without SQVars the connection never quotes anything in a SET list. |
| PdoManager.SelectValues | SQLiteMan/Manager.php:621-628 | VALUES, a line feed and a tab, then one parenthesised row per argument separated by ",\n\t". |
| PdoManager.SelectValuesShape | SQLiteMan/Manager.php:621-628 | No rows leave a bare VALUES; one row is written in parentheses; each further row adds ",\n\t" and itself. |
| PdoManagerDdl.TypeOnly | SQLiteMan/Manager.php:340-358 | A column given by its type alone has that type and every other option at its default. |
| PdoManagerDdl.ColumnDefPrecedence | SQLiteMan/Manager.php:340-358 | A default value hides a default expression, and a stored generated expression hides a virtual one. |
| PdoManagerDdl.ColumnDefType | SQLiteMan/Manager.php:340-358 | A type given as a string is quoted by the connection as a string literal. |
| PdoManagerDdl.KeyedColumnsSpec | SQLiteMan/Manager.php:377-383 | An ordinal is collected exactly when some keyed column carries it. |
| PdoManagerDdl.PkCollectSpec | SQLiteMan/Manager.php:377-383 | The loop fails exactly when two keyed columns share an ordinal, and otherwise collects every keyed column under its own ordinal, with distinct ordinals. |
| PdoManagerDdl.PkCollectFails | SQLiteMan/Manager.php:380 | Once an ordinal has repeated, the whole loop fails. |
| PdoManagerDdl.PkDef | SQLiteMan/Manager.php:384-387 | The PRIMARY KEY definition is present exactly when some column is keyed, and it is `PRIMARY KEY(` … `)`; the key order is in PdoManagerDdl.PrimaryKeyOrder. |
| PdoManagerDdl.CreateTable | SQLiteMan/Manager.php:374-395 | The method gives the reference statement: false on a repeated ordinal, otherwise the head, the definitions, the key clause and the constraints. |
| PdoManagerDdl.DefineColumns | SQLiteMan/Manager.php:377-383 | The loop succeeds exactly when no ordinal repeats, and then gives every column's definition and the collected key. |
| PdoManagerDdl.PrimaryKeyOrder | SQLiteMan/Manager.php:384-387 | Using the intended reading, the key clause lists exactly the keyed columns, in ascending ordinal order, whatever their declaration order. |
| PdoManagerDdl.CreateTableOne | SQLiteMan/Manager.php:374-395 | A one-column table is its head, its definition and the key clause when there is one. |
| PdoManagerDdl.AutoincrementKeyed | SQLiteMan/Manager.php:379 | As written, an autoincrement key column is also collected for the PRIMARY KEY clause; with the intended precedence it is not. |
| PdoManagerDdl.AutoincrementTwoKeys | SQLiteMan/Manager.php:379 | So the table as written declares two primary keys, which SQLite refuses, while the intended table declares one. |
| PdoManagerDdl.KeyedColumnsIn | SQLiteMan/Manager.php:377-383 | An entry of the key list is exactly the ordinal and name of a keyed column. |
| PdoManagerDdl.IntendedKeyOnce | SQLiteMan/Manager.php:377-387 | With the intended rule a key column declares its key in one place: an autoincrement column ends its definition with PRIMARY KEY AUTOINCREMENT and is missing from the key list, any other key column is in the key list with its ordinal. |
| PdoManagerDdl.AutoincrementClash | SQLiteMan/Manager.php:379-380 | As written, an autoincrement column also clashes with a key column of the same ordinal and the whole statement fails. |
| PdoManagerDdl.DetectColumnDiff | SQLiteMan/Manager.php:274-305 | false without table info; otherwise the shared reference diff with defaults compared through this manager's value and a missing default read as null. |
| PhpCompare.Span | src/MySQLMan/ManagerBase.php:91-125 | The run found ends within the text, every character in it satisfies the test, and the character after it does not. |
| PhpCompare.LooseEqExamples | src/SQLiteMan/Manager.php:370-379 | Numeric strings are loosely equal by value ("1" and "1.0", "1e1" and "10") and "1" differs from "10"; other strings compare exactly, so "abc" differs from "ABC". |
| PhpArray.Put | SQLiteMan/Manager.php:381 | An assignment leaves the array as long as it was, or one longer. |
| PhpArray.PutLookup | SQLiteMan/Manager.php:381 | After an assignment the key holds the new value and every other key is untouched. |
| PhpArray.LookupSome | SQLiteMan/Manager.php:380 | isset finds a key exactly when some entry carries it. |
| PhpArray.PutDistinct | SQLiteMan/Manager.php:381 | An assignment keeps the keys distinct. |
| PhpArray.Unset | src/SQLiteMan/Manager.php:386 | unset never makes the array longer. |
| PhpArray.UnsetLookup | src/SQLiteMan/Manager.php:386 | After unset the key is absent and every other key is untouched. |
| PhpArray.InsertSorted | SQLiteMan/Manager.php:385 | Inserting into a sorted array keeps it sorted. |
| PhpArray.InsertLookup | SQLiteMan/Manager.php:385 | Insertion adds the key with its value and leaves the other keys alone. |
| PhpArray.KSortSpec | SQLiteMan/Manager.php:385 | ksort leaves the keys ascending and every key with its own value. |
| PhpArray.SortedUnique | SQLiteMan/Manager.php:385 | Two sorted arrays that agree on every key are the same, so ksort's result is determined by the array's contents. |
| PhpArray.SortedHead | SQLiteMan/Manager.php:385 | In a sorted array no key below the first occurs, and no key at or below the first occurs after it. |
| Clauses.EqualTail | src/SQLiteMan/Manager_adds.php:28-41 | Null is compared with IS NULL, and any other value with ` = ` followed by exactly its escaped text. |
| Clauses.Concat | src/SQLiteMan/Manager_adds.php:20-26 | The loop gives the escaped values of all arguments, in order, joined by the concatenation operator. |
| Clauses.Where | src/SQLiteMan/Manager_adds.php:28-56 | The loop gives the conditions joined by AND or OR. |
| Clauses.WhereColumn | src/SQLiteMan/Manager_adds.php:28-41 | A column compared with null reads IS NULL, with anything else `= <value>`. |
| Clauses.WhereSplice | src/SQLiteMan/Manager_adds.php:28-41 | An integer key splices the value alone, and no entries give the empty text. |
| Clauses.WhereAppend | src/SQLiteMan/Manager_adds.php:28-56 | Each further entry adds the connective and its condition, in list order. |
| Clauses.On | src/SQLiteMan/Manager_adds.php:58-71 | The loop gives the ON conditions joined by AND. |
| Clauses.OnEquatesNames | src/SQLiteMan/Manager_adds.php:58-71 | Both sides of an ON equation are names: the right side is never quoted as a value; an integer key gives the name alone. |
| Clauses.Set | src/SQLiteMan/Manager_adds.php:73-85 | The loop gives the assignments joined by commas. |
| Clauses.SetShape | src/SQLiteMan/Manager_adds.php:73-85 | Every assignment is a quoted column path, ` =` and the value; no entries give the empty text; each further entry adds a comma. |
| Clauses.OrderBy | src/SQLiteMan/Manager_adds.php:95-114 | The method gives the reference ordering: an array applies the options to each item and joins them with commas. |
| Clauses.OrderOptionsFilter | src/SQLiteMan/Manager_adds.php:95-114 | The direction is written only when it upper-cases to ASC or DESC, the nulls position only for FIRST or LAST, and COLLATE comes before both. |
| Clauses.OrderByList | src/SQLiteMan/Manager_adds.php:95-114 | An array applies the same options to every item, and an empty array gives the empty text. |
| Clauses.IndexedColumn | src/SQLiteMan/Manager_adds.php:123-128 | An indexed column is an ordering term with a collation and a direction but no nulls position. |
| Clauses.Upsert | src/SQLiteMan/Manager_adds.php:140-155 | The clause starts with ON CONFLICT and ends with DO and the action; with no update set it ends in DO NOTHING; with no conflict columns there is no target at all. |
| Clauses.UpsertParts | src/SQLiteMan/Manager_adds.php:140-155 | Without columns the conflict WHERE is ignored; without an update set the update WHERE is ignored and DO NOTHING is written. |
| Clauses.WhenList | src/SQLiteMan/Manager_adds.php:191-203 | The loop gives the WHEN terms joined by single spaces. |
| Clauses.WhenListKeys | src/SQLiteMan/Manager_adds.php:191-203 | An integer key is written as a number and a string key as a quoted string; no entries give the empty text. |
| Clauses.Case | src/SQLiteMan/Manager_adds.php:165-175 | CASE, the optional subject and the WHEN list come first; the expression ends in END, preceded by ELSE and the escaped value whenever that value is not null. |
| Clauses.CaseShape | src/SQLiteMan/Manager_adds.php:165-175 | CASE, the subject as a name, the WHEN list, ELSE only for a non-null value, then END. |
| Clauses.Returning | src/SQLiteMan/Manager_adds.php:226-228 | The clause starts with RETURNING. |
| Clauses.ReturningAlias | src/SQLiteMan/Manager_adds.php:226-228 | RETURNING keeps aliases: a string-keyed column is written with ` AS ` and its quoted key. |
| Statements.PkArraySpec | src/SQLiteMan/Manager_adds.php:275-297 | The collected key array has distinct ordinals, each mapped to the last key column declared with it. |
| Statements.PrimaryKeyColumns | src/SQLiteMan/Manager_adds.php:275-297 | After ksort the ordinals ascend, each with the last column declared with it. |
| Statements.KeyColumnsAreKeyed | src/SQLiteMan/Manager_adds.php:275-297 | A collected column has a non-zero ordinal and no autoincrement. |
| Statements.AutoincrementKeyOnce | src/SQLiteMan/Manager_adds.php:279-291 | An autoincrement key column declares its key only in its own definition, which ends with PRIMARY KEY AUTOINCREMENT; no entry of the key array names it. |
| Statements.LastWithOrdinalAppend | src/SQLiteMan/Manager_adds.php:275-297 | The last column with an ordinal is found in the later part first. |
| Statements.PrimaryKeyOrderIndependent | src/SQLiteMan/Manager_adds.php:275-297 | Swapping two neighbouring columns that do not claim the same ordinal does not change the key clause. |
| Statements.LaterOrdinalWins | src/SQLiteMan/Manager_adds.php:275-297 | A later column with an ordinal already used replaces the earlier one. |
| Statements.PkNames | src/SQLiteMan/Manager_adds.php:275-297 | The key's names form a list with one entry per key column. |
| Statements.CreateTable | src/SQLiteMan/Manager_adds.php:275-297 | The method gives the reference statement: the column definitions separated by ",\n", then the ksorted PRIMARY KEY, the constraints and the options. |
| Statements.AppendColumns | src/SQLiteMan/Manager_adds.php:275-297 | The column loop appends the definitions and collects the reference key array. |
| Statements.SortTwo | src/SQLiteMan/Manager_adds.php:275-297 | Two key columns declared in descending ordinal order come out ascending. |
| Statements.NamesOfTwo | src/SQLiteMan/Manager_adds.php:275-297 | A two-column key is the two quoted names joined by a comma. |
| Statements.CreateTableKey | src/SQLiteMan/Manager_adds.php:275-297 | Without key columns there is no PRIMARY KEY clause; with two the clause names them in ordinal order. |
| Statements.CreateTableSelect | src/SQLiteMan/Manager_adds.php:307-313 | The statement starts with CREATE and ends with AS and the select text verbatim; it starts with CREATE TEMP exactly when a temporary table is asked for. |
| Statements.DropTable | src/SQLiteMan/Manager_adds.php:321-323 | DROP TABLE, IF EXISTS unless switched off, then a quoted table path. |
| Statements.RenameTable | src/SQLiteMan/Manager_adds.php:331-334 | The new name is quoted whole and ends the statement, so a dot in it stays inside the quotes. |
| Statements.RenameColumn | src/SQLiteMan/Manager_adds.php:343-346 | The new column name is quoted whole and ends the statement. |
| Statements.AddColumn | src/SQLiteMan/Manager_adds.php:355-358 | The column definition ends the statement. |
| Statements.DropColumn | src/SQLiteMan/Manager_adds.php:366-369 | The quoted column name ends the statement. |
| Statements.SelectValues | src/SQLiteMan/Manager_adds.php:371-377 | VALUES and one parenthesised row per argument, separated by ",\n". |
| Statements.Select | src/SQLiteMan/Manager_adds.php:391-404 | The statement starts with SELECT and the aliased result columns. |
| Statements.SelectOffsetNeedsLimit | src/SQLiteMan/Manager_adds.php:391-404 | OFFSET needs LIMIT: without a limit the offset is dropped. |
| Statements.SelectLimitLast | src/SQLiteMan/Manager_adds.php:391-404 | LIMIT and OFFSET close the statement, in that order, after every other clause. |
| Statements.SelectBare | src/SQLiteMan/Manager_adds.php:391-404 | With only result columns the statement is SELECT and the aliased names. |
| Statements.InsertDefault | src/SQLiteMan/Manager_adds.php:419-424 | INSERT, then the statement ends with INTO, the escaped table and a new line with DEFAULT VALUES. |
| Statements.Insert | src/SQLiteMan/Manager_adds.php:437-445 | INSERT, then the statement ends with the VALUES list of the data and, when given, the upsert clause on its own line. |
| Statements.InsertColumnsMatchValues | src/SQLiteMan/Manager_adds.php:437-445 | Column i of the insert is the i-th key of the data and value i its value: the two lists have the same length and match entry by entry. |
| Statements.InsertSelect | src/SQLiteMan/Manager_adds.php:455-463 | INSERT, then the statement ends with the select on a new line and the optional upsert; without a column list the select follows the table directly. |
| Statements.Update | src/SQLiteMan/Manager_adds.php:465-472 | UPDATE, then the statement ends with SET and the assignment list, the FROM part and the WHERE part, in that order. |
| Statements.Delete | src/SQLiteMan/Manager_adds.php:474-478 | DELETE FROM and the escaped table come first, and the WHERE part ends the statement. |
| Statements.DeleteWhere | src/SQLiteMan/Manager_adds.php:474-478 | An empty condition list writes no WHERE, so the delete applies to every row; a non-empty one is joined with AND. |
| Statements.UpdateWhere | src/SQLiteMan/Manager_adds.php:465-472 | Without conditions the update is the table, the SET list and FROM, with no WHERE. |
| Statements.OrPartChecked | src/SQLiteMan/Manager_adds.php:437-445 | The conflict clause is written as given for the five listed words in any case, and dropped otherwise. |
| Statements.FnValues | src/SQLiteMan/Manager_adds.php:487-489 | The function name directly followed by the comma-joined escaped values in parentheses. |
| Statements.FnNames | src/SQLiteMan/Manager_adds.php:498-500 | The function name directly followed by the parenthesised name list. |
| Statements.FnNamesPlain | src/SQLiteMan/Manager_adds.php:498-500 | Positional keys never produce an alias: each name is written alone. |
| Statements.Cast | src/SQLiteMan/Manager_adds.php:502-504 | CAST( and the escaped value come first; the expression ends with AS, the type escaped as a value (not as a name) and the closing parenthesis. |
| Text.UndoubleDouble | src/SQLiteMan/Manager.php:110-133 | Undoubling a quote character is the inverse of doubling it, so a quoted part converts back to its name. |
| Text.DoubleFree | src/SQLiteMan/Manager.php:110-112 | A text without the quote character is left alone by doubling and by undoubling. |
| Text.StripSpec | src/SQLiteMan/ManagerBase.php:256-262 | Deleting a character leaves none of it, keeps every other character in order, and changes nothing if it is absent. |
| Text.UpperIdempotent | src/SQLiteMan/ManagerBase.php:307-315 | Upper-casing twice is upper-casing once. |

## Left out

- Database access is not modelled: `exec`, `query`, `timeout`, `lastInsertID`, `throwExceptions` and `lastError`. Neither are the PRAGMA and catalog fetchers, the wrappers that run a generated statement, or result iteration. They are I/O with no visible semantics here; the differ takes the `table_info` rows as an input instead.
- The drivers' quoters (`quoteVal`, `quoteHex`, `quoteBin`, the connection's `quote`) are uninterpreted functions, because each is a call into the database driver. For the same reason the MySQL connection is kept only as its `quote` function.
- src/SQLiteManPDO.php does not define the abstract `quoteBin` of the manager base. That is a class-loading error in PHP, which the model does not reproduce: a blob goes to the uninterpreted `quoteBin` like any other manager's.
- Floats are abstract: a float carries the text PHP's `strval` gives it. Float formatting is not modelled.
- `Php` values: `strval` of an array gives "Array" without PHP's warning. An object without `__toString` nested inside an array is not represented. `preg_match` on an array argument is not modelled; callers pass text.
- Named arguments to the variadic helpers are not modelled. Parameters are positional, keyed 0, 1, ….
- Array keys are taken as given. PHP's normalisation of numeric-string keys such as "1" to integer keys is not modelled.
- MySqlStatements.ToKey: a float, array or object used as a column key finds nothing. PHP would truncate the float, or raise a TypeError for an array or object.
- MySqlStatements.InsertMulti: the source fails with a TypeError when neither an explicit column list nor a first row that is an array is given. The model states these as its requires.
- MySqlEscape.IntCast: PHP's `(int)` of a numeric string is an uninterpreted `toInt`, because it goes through float parsing.
- `is_numeric` follows the PHP 8 grammar: leading and trailing white space, a sign, digits with an optional point and exponent, and no hexadecimal.
- `PHP_EOL` is taken as "\n".
- PhpCompare.LooseEq compares two numeric strings as exact numbers. PHP converts them to 64-bit integers or doubles first, so two numerals that differ only beyond a double's precision (more than 17 significant digits, or an integer past 2^63) are equal in PHP and unequal here. `columnIndex` and the differ both use it.
- ColumnDiff.Differs: the three cases where a strict comparison would go wrong are modelled. A default whose text is numeric (the float 1, written "1") matches a stored "1.0" by value. A desired entry that is a string or another non-array value reads every property through its `??` fallback, so it compares as an untyped BLOB column (`Desired.Bare`). A null entry is not `isset`, so its live column goes to drop (`Desired.NullEntry`). Two things are weaker than PHP: numbers are compared exactly, as for LooseEq above; and the desired key is kept as an ordinal, with `true` read as 1, so `'pk' => true` against a live ordinal above 1 counts as a change here, while PHP's bool comparison finds them equal.
- The `strict` option documented for `sql_createTable` is never read by the code, so it is not in the model.
- The `return false` after a failing `columnDef` in the create-table loops cannot happen, because `columnDef` always returns non-empty text. The model has no such branch.
- The empty TODO stubs `groupBy`, `window`, `insert_sql`, `update_sql` and `delete_sql` of SQLiteMan/Manager.php are not modelled, since they do nothing. Its `select_sql` is a working function but is not modelled either; given a GROUP BY or a WINDOW argument it calls the unfinished `groupBy` or `window` stub and writes the keyword with nothing after it.
- The rest of the MySQL manager is not modelled, to keep that part to its token builder, its escapers, its clause builders and its main statements:
  - the `cond_*` helpers other than `cond_equal`;
  - the join helpers, `fn`, `fn_values` and `fn_names`;
  - `is_empty` and `is_empty_num`, which call SQL functions defined outside this file;
  - `values_notnull`, and the aliases `v`, `v_nn`, `v_num` and `n`;
  - `sql_delete_from`, `sql_procedure`, the temporary-table statements and `create_index`;
  - the `LOCK_IN_SHARE_MODE` and `FOR_UPDATE` suffixes.
- Statements.Select and ManagerBaseSql.Select: their own contracts state only the SELECT head. The clause order and the OFFSET rule are in Statements.SelectLimitLast, Statements.SelectOffsetNeedsLimit and ManagerBaseSql.SelectOffsetNeedsLimit.
- Functions.CondOnSql and the other `OnSql` methods: an operand that is the very SQL object used as the name is not modelled; each operand's text is read before the name is extended.
- Clauses.Returning: its own contract states only the RETURNING keyword. How the aliases are written is in Clauses.ReturningAlias.

## Findings

| source | as written | input that shows it | evidently intended | confidence | as-written member | corrected member |
|---|---|---|---|---|---|---|
| src/SQLiteMan/Functions.php:41-44 | `cond_equal` writes the `<>` operator for every non-null value, exactly as `cond_diff` does | `cond_equal("a", 1)` gives ``"`a` <> 1"`` | `= <value>`, the opposite of `cond_diff` | not executed | Functions.CondEqualIsDiff | Functions.CondEqual |
| SQLiteMan/Manager.php:379 | `$colDef['pk'] ?? false && !(...)` parses as `pk ?? (false && ...)`, so an autoincrement key column is collected for the table's PRIMARY KEY clause too | one column with `pk` 1 and `ai` true gives both `PRIMARY KEY AUTOINCREMENT` and `PRIMARY KEY(...)`, which SQLite rejects | autoincrement columns left out of the key clause, as in src/SQLiteMan/Manager_adds.php | not executed | PdoManagerDdl.AutoincrementTwoKeys | PdoManagerDdl.PrimaryKeyOrder |
| src/SQLiteMan/ManagerBase.php:559-560 | OFFSET is added whenever an offset is given, outside the LIMIT branch | offset 5 with no limit gives `SELECT … OFFSET 5`, which SQLite's grammar does not allow | OFFSET only after LIMIT, as in src/SQLiteMan/Manager_adds.php | not executed | ManagerBaseSql.SelectOffsetWithoutLimit | ManagerBaseSql.SelectOffsetNeedsLimit |
| src/SQLiteMan/ManagerBase.php:524 | REGEXP_ORDER begins `(:?`, an optional colon, where a non-capturing group `(?:` was meant | the direction ":asc" upper-cases to ":ASC", is accepted, and is written out after the name | only ASC/DESC with an optional NULLS FIRST/LAST | not executed | ManagerBaseSql.OrderColonAsWritten | ManagerBaseSql.MatchesSafe |
