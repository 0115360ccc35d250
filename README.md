# EntityFramework.Wmi provider core in Dafny

This project models the deterministic core of the Entity Framework 6 provider for WMI (WQL). The provider turns EF command trees into query text and parameters, and maps EF types to store and ADO.NET types. The model covers:

- **Query generation** (`sql_generator.dfy`, `sql_rules.dfy`, `sql_builder.dfy`, `sql_write.dfy`, `symbols.dfy`, `symbol_table.dfy`, `sql_writer.dfy`):
  - the visiting pass of `SqlGenerator`, which builds nested select statements out of SQL fragments;
  - the statement-reuse compatibility table, parenthesisation, the OR-to-IN rewrite, NOT pushing, literal encoding, the group-by inner-query decision and set-operation wrapping;
  - column-collision flagging and the name registries;
  - the write pass: extent and column renaming, clause order, TOP/SKIP;
  - the scoped symbol table;
  - the indenting writer, which keeps a log of its calls and proves its text is the rendering of that log.
- **DML generation** (`dml_generator.dfy`): INSERT, UPDATE and DELETE text, parameters numbered `@p0, @p1, ...` in creation order, member-value tracking, and the prioritised key policy of the returning SELECT.
- **The command-tree checker** (`sql_checker.dfy`): a fold over the tree, proved to throw exactly when an APPLY is reachable and otherwise to answer whether a SKIP is.
- **The command trees** (`command_trees.dfy`) and the dispatch of `GenerateSql` (`command_generation.dfy`).
- **Type and parameter mapping**:
  - `metadata_helpers.dfy`, `provider_manifest.dfy` and `provider_services.dfy` (store types, DbTypes, parameter sizes, command creation);
  - `type_extensions.dfy` and `property_data_extensions.dfy` (lookup tables);
  - `wmi_parameter.dfy` (DbType inference of a parameter).
- **Utilities**:
  - `command_builder.dfy`: identifier quoting, with a proved round trip, and the dispose flag;
  - `key_to_list_map.dfy`: the multimap;
  - `string_util.dfy`: delimited lists, white-space scans and ordinal sorting, proved a sorted permutation;
  - `throw_exception.dfy`: argument guards;
  - `text.dfy`: the .NET string operations the provider relies on.

EF metadata (`TypeUsage`, facets, entity sets, functions) becomes plain records in `edm.dfy`. ADO.NET enums and runtime values are in `system_data.dfy`. Exceptions become `Result`/`Outcome` values (`errors.dfy`) that carry the exception kind and its message. Objects the source updates in place are classes: `SqlGenerator`, `Symbol`, the name registries, `SymbolTable`, `SqlWriter`, `KeyToListMap`, `WMIParameter`, `WMICommandBuilder` and the DML `ExpressionTranslator`. Their methods state the state they change. The visitor's methods state the text they return as a layout of the texts of their operands; where a contract says less, a line under "## Left out" says so. Loops are methods with invariants, proved against specification functions, and lemmas prove what the source promises about those functions.

## Model

| member | source | states |
|---|---|---|
| TypeExtensions.ToDbType | src/System.Data.WMI/TypeExtensions.cs:7-38 | the lookup succeeds exactly for the CLR types in the table; any other type is a KeyNotFoundException |
| TypeExtensions.ToDbTypeCollisions | src/System.Data.WMI/TypeExtensions.cs:9-26 | object and byte[] both map to Binary, and char and sbyte both map to SByte |
| TypeExtensions.ToDbTypeOtherwiseInjective | src/System.Data.WMI/TypeExtensions.cs:7-28 | apart from those two collisions, distinct mapped types get distinct DbTypes |
| PropertyDataExtensions.ToSystemType | src/System.Data.WMI/PropertyDataExtensions.cs:8-38 | fails (KeyNotFound) exactly for SInt64 and None; an array property gives an array type and a scalar property does not |
| PropertyDataExtensions.ToSystemTypeArray | src/System.Data.WMI/PropertyDataExtensions.cs:32-38 | the array form of a CIM type is the array of its scalar type |
| PropertyDataExtensions.PropertyHasDbType | src/System.Data.WMI/PropertyDataExtensions.cs:32-38 | a converted property type has a DbType exactly when it is a scalar or a UInt8 array |
| PropertyDataExtensions.ToSystemTypeCollisions | src/System.Data.WMI/PropertyDataExtensions.cs:8-25 | Real32 and Real64 both become decimal, Char16 and String both become string, Object and Reference both become object |
| ThrowException.IfNull | src/System.Data.WMI.EF6/ThrowException.cs:5-15 | throws exactly for a null value, an ArgumentNullException naming the parameter |
| ThrowException.IfNullNorEmpty | src/System.Data.WMI.EF6/ThrowException.cs:17-21 | throws exactly for a null or white-space-only string, an ArgumentException naming the parameter |
| ThrowException.WhiteSpaceOnlyMeans | src/System.Data.WMI.EF6/ThrowException.cs:17-21 | the white-space test holds exactly when every char is white space |
| SqlFragments.SqlBuilder.Append | src/System.Data.WMI.EF6/Gen/SqlBuilder.cs:58-62 | the fragment goes at the end, everything before it is kept, and the builder is no longer empty |
| SqlFragments.SqlBuilder.AppendLine | src/System.Data.WMI.EF6/Gen/SqlBuilder.cs:69-72 | a new line goes at the end and everything before it is kept |
| SqlFragments.TopClauseOfCount | src/System.Data.WMI.EF6/Gen/TopClause.cs:28-34 | the count is a builder holding the integer's decimal text, with the ties flag as given |
| SqlFragments.SkipClauseOfCount | src/System.Data.WMI.EF6/Gen/SkipClause.cs:24-29 | the count is a builder holding the integer's decimal text |
| SqlFragments.SqlSelectStatement.WithTop | src/System.Data.WMI.EF6/Gen/SqlSelectStatement.cs:80-88 | setting TOP (allowed once) changes only TOP and makes the statement have a limit |
| SqlFragments.SqlSelectStatement.WithSkip | src/System.Data.WMI.EF6/Gen/SqlSelectStatement.cs:90-98 | setting SKIP (allowed once) changes only SKIP and makes the statement have an offset |
| SqlFragments.SqlSelectStatement.ExtentList | src/System.Data.WMI.EF6/Gen/SqlSelectStatement.cs:151-154 | the extents to rename are AllJoinExtents when set, FromExtents otherwise |
| SqlFragments.SqlSelectStatement.WithOuterExtent | src/System.Data.WMI.EF6/Gen/SqlSelectStatement.cs:78 | marks the symbol as an outer extent: the set grows by that symbol only, and is unchanged when it was already there |
| SqlFragments.HaveOrderByLimitOrOffsetCases | src/System.Data.WMI.EF6/Gen/SqlSelectStatement.cs:236-248 | a new statement has none; the test is false exactly when ORDER BY is empty and there is no TOP and no SKIP; setting TOP or extending ORDER BY makes it true |
| SqlFragments.StatementSymbols | src/System.Data.WMI.EF6/Gen/SqlSelectStatement.cs:100-110 | collects every symbol a statement can write: those of each clause, of TOP and SKIP, and its extents |
| SqlWriters.LinePrefix | src/System.Data.WMI.EF6/Gen/SqlWriter.cs:35-52 | at the beginning of a line with a positive indent, that many tabs; otherwise nothing |
| SqlWriters.RenderAppend | src/System.Data.WMI.EF6/Gen/SqlWriter.cs:35-60 | writing two call sequences one after the other gives the text of the first followed by the text of the second, started in the line state the first left |
| SqlWriters.RenderMidLine | src/System.Data.WMI.EF6/Gen/SqlWriter.cs:35-52 | strings written in the middle of a line without a new line appear as they are, with no tabs |
| SqlWriters.RenderSnoc | src/System.Data.WMI.EF6/Gen/SqlWriter.cs:35-60 | one more write appends exactly the text that call produces |
| SqlWriters.SqlWriter.constructor | src/System.Data.WMI.EF6/Gen/SqlWriter.cs:18-26 | empty text, indent -1, at the beginning of a line |
| SqlWriters.SqlWriter.Write | src/System.Data.WMI.EF6/Gen/SqlWriter.cs:35-52 | a new line is written as it is and starts a line; other text gets the indent's tabs first when at the beginning of a line; the text stays the rendering of all calls so far |
| SqlWriters.SqlWriter.WriteLine | src/System.Data.WMI.EF6/Gen/SqlWriter.cs:56-60 | writes a new line and is then at the beginning of a line |
| SqlWriters.SqlWriter.WriteChar | src/System.Data.WMI.EF6/Gen/SqlWriter.cs:11-61 | a char goes to the underlying writer as it is, without tabs |
| SqlWriters.SqlWriter.SetIndent | src/System.Data.WMI.EF6/Gen/SqlWriter.cs:26 | the indent setter |
| SymbolTables.Resolve | src/System.Data.WMI.EF6/Gen/SymbolTable.cs:38-45 | a name resolves only to a symbol bound to it in some scope |
| SymbolTables.ResolveInnermost | src/System.Data.WMI.EF6/Gen/SymbolTable.cs:38-45 | a name is unresolved exactly when no scope binds it; otherwise it resolves to its binding in the innermost scope that binds it |
| SymbolTables.AddThenResolve | src/System.Data.WMI.EF6/Gen/SymbolTable.cs:33-45 | after binding a name in the innermost scope it resolves to that symbol |
| SymbolTables.ResolveUnaffected | src/System.Data.WMI.EF6/Gen/SymbolTable.cs:23-45 | entering a scope, or binding another name, changes no other name's resolution |
| SymbolTables.SymbolTable.constructor | src/System.Data.WMI.EF6/Gen/SymbolTable.cs:19-21 | no scopes |
| SymbolTables.SymbolTable.EnterScope | src/System.Data.WMI.EF6/Gen/SymbolTable.cs:23-26 | pushes an empty scope |
| SymbolTables.SymbolTable.ExitScope | src/System.Data.WMI.EF6/Gen/SymbolTable.cs:28-31 | pops the innermost scope; with none, ArgumentOutOfRange and nothing changes |
| SymbolTables.SymbolTable.Add | src/System.Data.WMI.EF6/Gen/SymbolTable.cs:33-36 | binds the name (ignoring case) in the innermost scope only, after which it resolves to the symbol; with no scope, ArgumentOutOfRange |
| SymbolTables.SymbolTable.Lookup | src/System.Data.WMI.EF6/Gen/SymbolTable.cs:38-45 | the innermost binding of the name ignoring case, or null |
| KeyToListMaps.ConcatContains | src/System.Data.WMI.EF6/Gen/KeyToListMap.cs:19-30 | every value of every key's list is among all the values |
| KeyToListMaps.ConcatOrigin | src/System.Data.WMI.EF6/Gen/KeyToListMap.cs:19-30 | every value among all the values comes from some key's list |
| KeyToListMaps.ConcatLength | src/System.Data.WMI.EF6/Gen/KeyToListMap.cs:19-30 | there are as many values as the lists hold together |
| KeyToListMaps.KeyToListMap.constructor | src/System.Data.WMI.EF6/Gen/KeyToListMap.cs:13-16 | no keys and no lists |
| KeyToListMaps.KeyToListMap.Add | src/System.Data.WMI.EF6/Gen/KeyToListMap.cs:36-45 | the value goes at the end of the key's list; a new key goes at the end of the keys |
| KeyToListMaps.KeyToListMap.AddRange | src/System.Data.WMI.EF6/Gen/KeyToListMap.cs:47-51 | the values go at the end of the key's list in order; no values change nothing |
| KeyToListMaps.KeyToListMap.ContainsKey | src/System.Data.WMI.EF6/Gen/KeyToListMap.cs:53-56 | true exactly for a key with a list |
| KeyToListMaps.KeyToListMap.EnumerateValues | src/System.Data.WMI.EF6/Gen/KeyToListMap.cs:58-65 | the key's list, or nothing for an absent key |
| KeyToListMaps.KeyToListMap.ListForKey | src/System.Data.WMI.EF6/Gen/KeyToListMap.cs:67-70 | the key's list; an absent key is a KeyNotFoundException |
| KeyToListMaps.KeyToListMap.TryGetListForKey | src/System.Data.WMI.EF6/Gen/KeyToListMap.cs:89-97 | false for an absent key, the same list as ListForKey otherwise |
| KeyToListMaps.KeyToListMap.RemoveKey | src/System.Data.WMI.EF6/Gen/KeyToListMap.cs:72-75 | reports whether the key was there and drops it with its list; the other keys stay, in their order |
| KeyToListMaps.KeyToListMap.AllValues | src/System.Data.WMI.EF6/Gen/KeyToListMap.cs:19-30 | the lists of all keys, key after key in insertion order |
| Symbols.Registered | src/System.Data.WMI.EF6/Gen/Symbol.cs:61-69 | after a rename the old name remembers its last suffix and the new name is registered with suffix 0; no name is dropped |
| Symbols.FreshNameIsNew | src/System.Data.WMI.EF6/Gen/Symbol.cs:55-59 | a name found by the rename search differs, ignoring case, from every name registered before |
| Symbols.SuccessiveRenamesDiffer | src/System.Data.WMI.EF6/Gen/Symbol.cs:55-69 | two renames in a row give different names, whatever their bases |
| Symbols.NameRegistry.constructor | src/System.Data.WMI.EF6/Gen/SqlGenerator.cs:344-345 | an empty registry |
| Symbols.NameRegistry.Contains | src/System.Data.WMI.EF6/Gen/SqlGenerator.cs:220-225 | ContainsKey ignoring case |
| Symbols.NameRegistry.Set | src/System.Data.WMI.EF6/Gen/SqlGenerator.cs:220-225 | the indexer's setter, keyed ignoring case, changing only that key |
| Symbols.NameRegistry.FirstFreeSuffix | src/System.Data.WMI.EF6/Gen/Symbol.cs:54-59 | the do-while loop ends at the first suffix above the start whose name is not registered, and every suffix between them is taken |
| Symbols.FirstFree | src/System.Data.WMI.EF6/Gen/Symbol.cs:54-59 | the first free suffix exists, whatever the registry holds |
| Symbols.FirstFreeUnique | src/System.Data.WMI.EF6/Gen/Symbol.cs:54-59 | there is only one first free suffix, so the search's result is determined by the registry |
| Symbols.Symbol.constructor | src/System.Data.WMI.EF6/Gen/Symbol.cs:23-28 | the new name starts as the name; not flagged for renaming, not unnest, no columns |
| Symbols.Symbol.Join | src/System.Data.WMI.EF6/Gen/JoinSymbol.cs:39-49 | a join symbol over the extents in order, indexed by name ignoring case (last wins); empty column and flattened lists; not nested |
| Symbols.Symbol.WriteSql | src/System.Data.WMI.EF6/Gen/Symbol.cs:49-73 | a flagged column takes the first free name `name + i` above its registered suffix, registers it and clears the flag (an unregistered name is a KeyNotFoundException); then its current name is written |
| Symbols.NameIndex | src/System.Data.WMI.EF6/Gen/JoinSymbol.cs:43-48 | every symbol indexed is one of the extents |
| Symbols.NameIndexFinds | src/System.Data.WMI.EF6/Gen/JoinSymbol.cs:43-48 | an extent with no later extent of the same name (ignoring case) is found under its name |
| Symbols.NameIndexKeys | src/System.Data.WMI.EF6/Gen/JoinSymbol.cs:43-48 | every key is the folded name of the extent it finds |
| SqlWriting.NewNames | src/System.Data.WMI.EF6/Gen/SqlSelectStatement.cs:136-141 | the current names of the symbols, in order |
| SqlWriting.AliasesOfMembers | src/System.Data.WMI.EF6/Gen/SqlSelectStatement.cs:132-149 | an alias is an outer alias exactly when it is the current name of a plain outer extent or of a flattened extent of an outer join |
| SqlWriting.OuterExtentAliases | src/System.Data.WMI.EF6/Gen/SqlSelectStatement.cs:132-149 | the loop collects the outer aliases, outer extent by outer extent, without changing anything |
| SqlWriting.RenameStep | src/System.Data.WMI.EF6/Gen/SqlSelectStatement.cs:156-182 | an extent whose name is already an alias takes the first free suffix of the extent registry (an unregistered name is a KeyNotFoundException); either way its name becomes an alias |
| SqlWriting.RenameAll | src/System.Data.WMI.EF6/Gen/SqlSelectStatement.cs:154-182 | the renaming loop adds one alias per extent and stops at the first failure |
| SqlWriting.Snapshot | src/System.Data.WMI.EF6/Gen/SqlSelectStatement.cs:154-182 | the current name of each extent |
| SqlWriting.RenameAllStops | src/System.Data.WMI.EF6/Gen/SqlSelectStatement.cs:154-182 | once the loop fails, the later extents change nothing |
| SqlWriting.RenameStepFresh | src/System.Data.WMI.EF6/Gen/SqlSelectStatement.cs:158-181 | a renamed extent's new name differs, ignoring case, from every alias seen before it |
| SqlWriting.RenameAllPrefix | src/System.Data.WMI.EF6/Gen/SqlSelectStatement.cs:154-182 | a loop that succeeds succeeds on every prefix of the extents |
| SqlWriting.RenameAllRegistered | src/System.Data.WMI.EF6/Gen/SqlSelectStatement.cs:154-182 | the loop keeps every alias registered in the extent registry |
| SqlWriting.RenameAllFresh | src/System.Data.WMI.EF6/Gen/SqlSelectStatement.cs:154-182 | every extent the loop renames gets a name unlike any alias before it, so no two aliases of a FROM clause collide |
| SqlWriting.RenamedByStep | src/System.Data.WMI.EF6/Gen/SqlSelectStatement.cs:158-173 | the renamed extent's name is its name followed by the first free suffix, and the registry records both |
| SqlWriting.RenameExtents | src/System.Data.WMI.EF6/Gen/SqlSelectStatement.cs:154-182 | the loop is the specification RenameAll: it throws its error, or gives every extent its new name and leaves the registry as RenameAll says |
| SqlWriting.RenameOne | src/System.Data.WMI.EF6/Gen/SqlSelectStatement.cs:158-181 | one round of the loop is one RenameStep |
| SqlWriting.RenameAllNext | src/System.Data.WMI.EF6/Gen/SqlSelectStatement.cs:154-182 | the loop over one more extent is one more step |
| SqlWriting.TextBuilderWritten | src/System.Data.WMI.EF6/Gen/SqlBuilder.cs:30-50 | a builder of strings is written as those strings, one call each, in order |
| SqlWriting.SymbolWritten | src/System.Data.WMI.EF6/Gen/Symbol.cs:72 | a symbol is written as one string |
| SqlWriting.WriteFragment | src/System.Data.WMI.EF6/Gen/SqlBuilder.cs:35-49 | a string or char is written as it is, a symbol as its current name after renaming, any other object is an InvalidOperationException; the writer's text is the rendering of its calls |
| SqlWriting.WriteBuilder | src/System.Data.WMI.EF6/Gen/SqlBuilder.cs:30-50 | the fragments in order, each written as FragmentWritten says, stopping at the first that throws; an empty builder writes nothing |
| SqlWriting.WriteTop | src/System.Data.WMI.EF6/Gen/TopClause.cs:52-66 | " LIMIT " and the count; WITH TIES is a NotSupportedException after the count |
| SqlWriting.WriteSkip | src/System.Data.WMI.EF6/Gen/SkipClause.cs:42-46 | " OFFSET " and the count |
| SqlWriting.WriteClause | src/System.Data.WMI.EF6/Gen/SqlSelectStatement.cs:198-219 | a present clause is a new line, its keyword and its body; an absent one writes nothing |
| SqlWriting.WriteStatement | src/System.Data.WMI.EF6/Gen/SqlSelectStatement.cs:128-227 | renames the extents as RenameAll says, then writes the layout SELECT, FROM, WHERE, GROUP BY, ORDER BY (top most or with TOP), LIMIT, OFFSET one indent deeper; an empty SELECT list throws |
| SqlWriting.RenameStatementExtents | src/System.Data.WMI.EF6/Gen/SqlSelectStatement.cs:132-182 | the aliases of the outer extents, then the renaming loop over AllJoinExtents or FromExtents |
| SqlWriting.WriteLaidOut | src/System.Data.WMI.EF6/Gen/SqlSelectStatement.cs:185-226 | the indent is raised by one and restored; an empty SELECT list is an InvalidOperationException after the heading |
| SqlWriting.WriteClauses | src/System.Data.WMI.EF6/Gen/SqlSelectStatement.cs:193-224 | the clauses of the body in order |
| SqlWriting.WriteSelectFrom | src/System.Data.WMI.EF6/Gen/SqlSelectStatement.cs:193-197 | the SELECT list, a new line, FROM and the FROM clause |
| SqlWriting.WriteFilters | src/System.Data.WMI.EF6/Gen/SqlSelectStatement.cs:199-219 | WHERE and GROUP BY when not empty; ORDER BY when not empty and the statement is top most or has a TOP |
| SqlWriting.WriteLimits | src/System.Data.WMI.EF6/Gen/SqlSelectStatement.cs:221-224 | TOP's LIMIT, then SKIP's OFFSET, each when set |
| SqlGeneration.PropertyItemsAt | src/System.Data.WMI.EF6/Gen/SqlGenerator.cs:2269-2278 | the i-th property's part of the SELECT list is its separator (the starting one for the first, a comma after), the extent, ".", the property's name, " AS " and its column |
| SqlGeneration.JoinColumnItemsAt | src/System.Data.WMI.EF6/Gen/SqlGenerator.cs:2231-2234 | the i-th column of a nested join is written as its separator, the join, "." and the column |
| SqlGeneration.RegisterAllMeans | src/System.Data.WMI.EF6/Gen/SqlGenerator.cs:2252-2258 | registering the property names puts each in the column registry with suffix 0, keeps every other name and its suffix, and adds no other name |
| SqlGeneration.FirstFiledAt | src/System.Data.WMI.EF6/Gen/SqlGenerator.cs:2280-2289 | the collision dictionary holds under each name a column that was filed under that name |
| SqlGeneration.CollidingAdd | src/System.Data.WMI.EF6/Gen/SqlGenerator.cs:2280-2287 | filing a column under a new name flags nothing new; filing one under a name already taken can flag only the new column and the one filed there first |
| SqlGeneration.PropertyLoopDone | src/System.Data.WMI.EF6/Gen/SqlGenerator.cs:2252-2292 | after one round per property: one column per property in order, the SELECT text PropertyItems, each column filed under its folded name, the earlier columns kept, and each name registered with suffix 0 |
| SqlGeneration.GroupByColumnsNamed | src/System.Data.WMI.EF6/Gen/SqlGenerator.cs:1011-1103 | the SELECT list of a GROUP BY is the keys' items and then the aggregates', one per key and aggregate, each opened by its separator and a new line and aliased as the result row's member at its position; with an inner query, the inner SELECT list aliases the keys and the aggregates' arguments the same way |
| SqlGeneration.GroupedStatement | src/System.Data.WMI.EF6/Gen/SqlGenerator.cs:999-1103 | the grouped statement is the input's own statement, or with an inner query the new statement over it, with the keys and the aggregates laid out as GroupedAs says |
| SqlGeneration.GroupedAsBase | src/System.Data.WMI.EF6/Gen/SqlGenerator.cs:1001-1009 | the grouped statement depends on the input's statement only through its clauses |
| SqlGeneration.JoinInputsInOrder | src/System.Data.WMI.EF6/Gen/SqlGenerator.cs:1871-1902 | in a join's FROM text, the i-th input starts at its offset with its separator (nothing for the first, a new line and the join keyword after), and the i-th new FROM extent is named after the i-th input's variable |
| SqlGeneration.JoinInputLaidOut | src/System.Data.WMI.EF6/Gen/SqlGenerator.cs:1876-1899 | one input's part of the FROM text is its separator, then what a reused leftmost join appended, or the input's FROM item; the statement gains exactly one FROM extent |
| SqlGeneration.JoinClosed | src/System.Data.WMI.EF6/Gen/SqlGenerator.cs:1905-1915 | after the inputs, an inner, left or full outer join appends " ON " and the condition's text; a cross join appends nothing |
| SqlGeneration.InLayoutGrow | src/System.Data.WMI.EF6/Gen/SqlGenerator.cs:435-489 | the IN rewrite joins the groups' texts by " OR ", one group after another |
| SqlGeneration.BuildInMapBelow | src/System.Data.WMI.EF6/Gen/SqlGenerator.cs:236-259 | the map of keys to values built from an OR tree holds only parts of that tree |
| SqlGeneration.ValueLayouts | src/System.Data.WMI.EF6/Gen/SqlGenerator.cs:2709-2727 | each value of an IN list is its text, in parentheses exactly when the value is a complex expression |
| SqlGeneration.FirstRejected | src/System.Data.WMI.EF6/Gen/SqlGenerator.cs:2053-2080 | the first argument of a row constructor that is itself a row, or lies past the row's members; every argument before it is not a row |
| SqlGeneration.SqlGenerator.constructor | src/System.Data.WMI.EF6/Gen/SqlGenerator.cs:339-346 | empty statement and join stacks, empty extent and column registries, no open scope, no variable reference pending |
| SqlGeneration.SqlGenerator.AddFromSymbol | src/System.Data.WMI.EF6/Gen/SqlGenerator.cs:2373-2393 | a symbol that does not already head the FROM extents is appended to them and its name registered with suffix 0 (otherwise nothing changes); when asked, the variable is bound to it in the innermost scope |
| SqlGeneration.SqlGenerator.ColumnOf | src/System.Data.WMI.EF6/Gen/SqlGenerator.cs:2254-2267 | the name is registered as a column name with suffix 0; the extent's column of that name is returned, created and filed (named after the property) only when missing |
| SqlGeneration.SqlGenerator.FileColumn | src/System.Data.WMI.EF6/Gen/SqlGenerator.cs:2280-2289 | a name already in the dictionary flags both the new column and the one filed there; otherwise the column is filed under the name; either way it joins the column list |
| SqlGeneration.SqlGenerator.AddPropertyColumn | src/System.Data.WMI.EF6/Gen/SqlGenerator.cs:2253-2291 | one property: its column is appended as `extent.name AS column`, the name registered, a collision flags both columns, and the separator becomes a comma |
| SqlGeneration.SqlGenerator.AddPropertyColumnAt | src/System.Data.WMI.EF6/Gen/SqlGenerator.cs:2253-2291 | one round of the property loop keeps the loop's invariant for one more property |
| SqlGeneration.SqlGenerator.PropertyColumnsLoop | src/System.Data.WMI.EF6/Gen/SqlGenerator.cs:2252-2292 | the property loop ends with the invariant over every property |
| SqlGeneration.SqlGenerator.AddPropertyColumns | src/System.Data.WMI.EF6/Gen/SqlGenerator.cs:2252-2292 | an extent's columns: one per property in order, the SELECT text `extent.name AS column` each with its separator, each filed under its name, earlier columns kept, and every name registered with suffix 0 |
| SqlGeneration.SqlGenerator.AddJoinColumn | src/System.Data.WMI.EF6/Gen/SqlGenerator.cs:2231-2248 | one column of a nested join is appended as `join.column`, joins the column list, and a collision flags both columns |
| SqlGeneration.SqlGenerator.AddNestedJoinColumnAt | src/System.Data.WMI.EF6/Gen/SqlGenerator.cs:2223-2249 | one round of the nested-join loop: the first k + 1 columns are in the list and the SELECT text |
| SqlGeneration.SqlGenerator.AddNestedJoinColumns | src/System.Data.WMI.EF6/Gen/SqlGenerator.cs:2222-2249 | a nested join's column list is appended in order, each as `join.column` |
| SqlGeneration.SqlGenerator.AddExtentColumns | src/System.Data.WMI.EF6/Gen/SqlGenerator.cs:2213-2221 | a join adds its extents' columns: the column list, its keys and the SELECT text only grow; the column registry only grows, and a name it gains or changes is one of the appended keys, at suffix 0; an extent of unknown type is a null reference |
| SqlGeneration.SqlGenerator.AddColumns | src/System.Data.WMI.EF6/Gen/SqlGenerator.cs:2208-2293 | an extent gives its properties' columns (failing exactly when its type is unknown), a nested join its column list, a join its extents' columns; the list and the SELECT text only grow and the registry only gains names at suffix 0 |
| SqlGeneration.SqlGenerator.AddDefaultColumns | src/System.Data.WMI.EF6/Gen/SqlGenerator.cs:2307-2326 | SELECT * expanded over the FROM extents in order: the SELECT list becomes the old list followed by one part per extent, and the column list the parts' columns; each part starts with a comma unless nothing precedes it; an extent's part is `extent.name AS column` for each of its properties, and each of those names is then registered at suffix 0; a nested join's part is `join.column` for each column of its list; only the SELECT list changes; no extents, no columns; the registry only gains the expanded names, at suffix 0; an extent of unknown type is a null reference |
| SqlGeneration.SqlGenerator.VisitLeaf | src/System.Data.WMI.EF6/Gen/SqlGenerator.cs:642-828 | a constant is its literal (or the literal's error), NULL is "NULL", a parameter is "@" and its name, an extent is its T-SQL name, inside a join as text and otherwise as the FROM clause of a new statement |
| SqlGeneration.SqlGenerator.VisitVariableReference | src/System.Data.WMI.EF6/Gen/SqlGenerator.cs:1616-1625 | a second variable reference before the flag is reset is NotSupported; otherwise the symbol bound to the name, recorded as an outer extent when it is not a FROM extent of the current statement, and the flag is set |
| SqlGeneration.SqlGenerator.Accept | src/System.Data.WMI.EF6/Gen/SqlGenerator.cs:496-1625 | the visit of the node's kind leaves the stacks and scopes as they were; an extent scan leaves the statement stack untouched |
| SqlGeneration.SqlGenerator.VisitUnary | src/System.Data.WMI.EF6/Gen/SqlGenerator.cs:590-595 | a cast is a builder holding its argument's text alone; IS NULL is its argument's text followed by ` IS NULL`; IS EMPTY is the `NOT EXISTS (...)` layout of a statement; NOT, DISTINCT and ELEMENT go to their own visitors; the reference, type-test and navigation nodes are NotSupported; the stacks are restored |
| SqlGeneration.SqlGenerator.VisitBinary | src/System.Data.WMI.EF6/Gen/SqlGenerator.cs:496-499 | AND is the binary layout of its operands around ` AND `, and a comparison the same around its operator; OR is the IN layout of its key groups when every leaf is a key test, and the ` OR ` binary layout otherwise; a set operation is the set-operation layout of two statements around its keyword; the stacks are restored |
| SqlGeneration.SqlGenerator.VisitNary | src/System.Data.WMI.EF6/Gen/SqlGenerator.cs:1262-1267 | a new instance that is not a collection is NotSupported outside a projection |
| SqlGeneration.SqlGenerator.VisitRelational | src/System.Data.WMI.EF6/Gen/SqlGenerator.cs:507-510 | APPLY is NotSupported("APPLY joins are not supported") |
| SqlGeneration.SqlGenerator.VisitAll | src/System.Data.WMI.EF6/Gen/SqlGenerator.cs:2136-2154 | as many texts as expressions; the stacks are restored |
| SqlGeneration.SqlGenerator.VisitBinaryExpression | src/System.Data.WMI.EF6/Gen/SqlGenerator.cs:1663-1681 | the left operand, the operator, the right operand, each operand in parentheses when complex |
| SqlGeneration.SqlGenerator.VisitIsNullExpression | src/System.Data.WMI.EF6/Gen/SqlGenerator.cs:1817-1827 | the argument, then " IS NULL" or " IS NOT NULL" |
| SqlGeneration.SqlGenerator.VisitIsEmptyExpression | src/System.Data.WMI.EF6/Gen/SqlGenerator.cs:1740-1750 | "EXISTS (" or "NOT EXISTS (", the argument's statement, ")" |
| SqlGeneration.SqlGenerator.HandleCountExpression | src/System.Data.WMI.EF6/Gen/SqlGenerator.cs:2583-2599 | a constant count is its value's text; anything else is its visit |
| SqlGeneration.SqlGenerator.VisitProperty | src/System.Data.WMI.EF6/Gen/SqlGenerator.cs:1410-1467 | over a join, the extent of the property's name; over a column pair, the joined extent or the column of that name; otherwise the quoted name alone, recorded among the result columns; a property over a variable reference resets the flag |
| SqlGeneration.SqlGenerator.PropertyMember | src/System.Data.WMI.EF6/Gen/SqlGenerator.cs:1418-1466 | the member of a visited instance: through a join the extent of that name (paired with a nested join), through a column pair the joined extent or column; otherwise the quoted name, added to the result columns; a missing name is KeyNotFound; never a statement |
| SqlGeneration.SqlGenerator.VisitNot | src/System.Data.WMI.EF6/Gen/SqlGenerator.cs:1281-1303 | NOT NOT x is x, NOT IS EMPTY and NOT IS NULL are the negated tests, NOT (a = b) is a <> b, and anything else is "NOT (" the operand ")", which differs from the operand |
| SqlGeneration.SqlGenerator.VisitCase | src/System.Data.WMI.EF6/Gen/SqlGenerator.cs:560-584 | CASE, each WHEN (...) THEN ..., the ELSE unless absent or NULL, END; more WHENs than THENs is an error |
| SqlGeneration.SqlGenerator.VisitLike | src/System.Data.WMI.EF6/Gen/SqlGenerator.cs:1210-1226 | argument LIKE pattern, then ESCAPE and the escape exactly when the escape is not NULL |
| SqlGeneration.SqlGenerator.VisitArithmetic | src/System.Data.WMI.EF6/Gen/SqlGenerator.cs:518-553 | unary minus is " -(" x ")", the binary operators their infix layout; a missing argument is out of range |
| SqlGeneration.SqlGenerator.VisitFunction | src/System.Data.WMI.EF6/Gen/SqlGenerator.cs:2120-2154 | the function's name and its arguments' texts in parentheses, none for a niladic one; a niladic function with arguments is an InvalidOperation |
| SqlGeneration.SqlGenerator.VisitCollectionConstructor | src/System.Data.WMI.EF6/Gen/SqlGenerator.cs:1759-1808 | one ELEMENT gives the element's statement with LIMIT 1; any other collection is a UNION ALL ladder of its elements |
| SqlGeneration.SqlGenerator.VisitNewInstanceExpression | src/System.Data.WMI.EF6/Gen/SqlGenerator.cs:2053-2080 | a row's arguments one per line, comma separated, each aliased as its member; a result that is not a row, an argument that is a row, or an argument past the members is an error |
| SqlGeneration.SqlGenerator.VisitOr | src/System.Data.WMI.EF6/Gen/SqlGenerator.cs:1334-1338 | when every leaf is a key equality or null test, the IN rewrite of the map built from the tree; otherwise the plain " OR " layout |
| SqlGeneration.SqlGenerator.TranslateGroups | src/System.Data.WMI.EF6/Gen/SqlGenerator.cs:444-488 | the groups' texts joined by " OR " in order |
| SqlGeneration.SqlGenerator.TranslateGroupAt | src/System.Data.WMI.EF6/Gen/SqlGenerator.cs:446-485 | one more group extends the layout of the first k |
| SqlGeneration.SqlGenerator.TranslateGroup | src/System.Data.WMI.EF6/Gen/SqlGenerator.cs:448-484 | `key = v` for one value, `key IN (v1, ...)` for several, then the key's null test when the group has one |
| SqlGeneration.SqlGenerator.NullOperand | src/System.Data.WMI.EF6/Gen/SqlGenerator.cs:480-484 | the operand of a group's null test exists exactly when the group has a null test |
| SqlGeneration.SqlGenerator.VisitSetOp | src/System.Data.WMI.EF6/Gen/SqlGenerator.cs:2082-2112 | both sides as statements, each wrapped when it has ORDER BY, LIMIT or OFFSET, the operator between them |
| SqlGeneration.SqlGenerator.VisitElement | src/System.Data.WMI.EF6/Gen/SqlGenerator.cs:772-780 | "(", the argument's statement, ")" |
| SqlGeneration.SqlGenerator.VisitQuantifier | src/System.Data.WMI.EF6/Gen/SqlGenerator.cs:1477-1497 | EXISTS (ANY) or NOT EXISTS (ALL) over the input filtered by the predicate, negated for ALL |
| SqlGeneration.SqlGenerator.VisitInputExpression | src/System.Data.WMI.EF6/Gen/SqlGenerator.cs:1700-1732 | a visited statement is kept; other text gets a new statement wrapping it; no FROM extent gives a new symbol of the input's name, one gives that extent, several are replaced by one join symbol over them |
| SqlGeneration.SqlGenerator.CreateNewSelectStatement | src/System.Data.WMI.EF6/Gen/SqlGenerator.cs:2454-2497 | a new statement with the old one nested in its FROM clause; only the old one's SELECT may change, and only when finalizing a statement that selects nothing, which then selects its default columns: one part per FROM extent, as `AddDefaultColumns` states them; the new symbol is then a nested join over the first extent's extents, carrying those columns and its flattened extents, exactly when that extent is a join; in every other case it is a plain symbol of the given type; a finalized statement over no extent is an index out of range |
| SqlGeneration.SqlGenerator.WrapUnlessReusable | src/System.Data.WMI.EF6/Gen/SqlGenerator.cs:2662-2707 | a statement compatible with the node is returned as it is; otherwise a new statement over it, compatible, with one FROM extent |
| SqlGeneration.SqlGenerator.InputStatement | src/System.Data.WMI.EF6/Gen/SqlGenerator.cs:1362-1367 | the input's statement when compatible with the node, else a new statement over it; the result is compatible and has at most one FROM extent, its symbol |
| SqlGeneration.SqlGenerator.EnsureSqlStatement | src/System.Data.WMI.EF6/Gen/SqlGenerator.cs:2787-2834 | a projection, filter, grouping or sort gives its own statement; anything else becomes the one FROM extent, named "c"; a non-collection of any other kind is an invalid cast |
| SqlGeneration.SqlGenerator.ExtentStatement | src/System.Data.WMI.EF6/Gen/SqlGenerator.cs:2801-2828 | an input named "c" in a scope of its own, its symbol the one FROM extent; a non-collection that is not a scan or join is an invalid cast |
| SqlGeneration.SqlGenerator.OpenInput | src/System.Data.WMI.EF6/Gen/SqlGenerator.cs:2849-2860 | the input's statement, compatible with the node, with the input's symbol as its one FROM extent, pushed as the current statement with the variable bound in a new scope |
| SqlGeneration.SqlGenerator.PushInput | src/System.Data.WMI.EF6/Gen/SqlGenerator.cs:2857-2860 | the statement is pushed with its symbol as its one FROM extent, and a new scope binds the variable to the symbol |
| SqlGeneration.SqlGenerator.CloseInput | src/System.Data.WMI.EF6/Gen/SqlGenerator.cs:2866-2867 | the current statement is popped and returned, the innermost scope left; nothing else changes |
| SqlGeneration.SqlGenerator.VisitFilterExpression | src/System.Data.WMI.EF6/Gen/SqlGenerator.cs:2847-2870 | the predicate (inside "NOT (" and ")" when negated) is the WHERE clause of the input's statement, or of a new one over it; the other clauses are the input's |
| SqlGeneration.SqlGenerator.VisitProject | src/System.Data.WMI.EF6/Gen/SqlGenerator.cs:1360-1387 | the projection is the SELECT list of the input's statement, or of a new one over it; the other clauses are the input's |
| SqlGeneration.SqlGenerator.VisitProjection | src/System.Data.WMI.EF6/Gen/SqlGenerator.cs:1378-1381 | a row constructor through VisitNewInstanceExpression, anything else by its visit |
| SqlGeneration.SqlGenerator.VisitSort | src/System.Data.WMI.EF6/Gen/SqlGenerator.cs:1562-1582 | the sort keys, each with its collation and ASC or DESC, comma separated, as the ORDER BY clause; the other clauses are the input's |
| SqlGeneration.SqlGenerator.VisitSkip | src/System.Data.WMI.EF6/Gen/SqlGenerator.cs:1531-1554 | the sort keys as the ORDER BY clause and the count (a constant's text) as the SKIP clause; the other clauses are the input's |
| SqlGeneration.SqlGenerator.SortedStatement | src/System.Data.WMI.EF6/Gen/SqlGenerator.cs:2401-2419 | AddSortKeys: one key per sort clause, laid out in order as the ORDER BY clause |
| SqlGeneration.SqlGenerator.VisitLimit | src/System.Data.WMI.EF6/Gen/SqlGenerator.cs:1233-1251 | the argument's statement, or a new one over it when it already has a TOP, with the count as its TOP (with ties as asked); a constant count is its text |
| SqlGeneration.SqlGenerator.VisitDistinct | src/System.Data.WMI.EF6/Gen/SqlGenerator.cs:751-764 | the argument's statement marked DISTINCT, or a new statement over it when it has a TOP or an ORDER BY |
| SqlGeneration.SqlGenerator.VisitGroupBy | src/System.Data.WMI.EF6/Gen/SqlGenerator.cs:974-1111 | the grouping over the input's compatible statement, laid out as GroupedAs says |
| SqlGeneration.SqlGenerator.GroupOver | src/System.Data.WMI.EF6/Gen/SqlGenerator.cs:995-1110 | the keys and aggregates over the current statement, which is then popped, as GroupedAs says |
| SqlGeneration.SqlGenerator.CloseGroup | src/System.Data.WMI.EF6/Gen/SqlGenerator.cs:1011-1110 | the grouped statement from the texts, the current statement popped and the scope left |
| SqlGeneration.SqlGenerator.OpenGroupInput | src/System.Data.WMI.EF6/Gen/SqlGenerator.cs:977-990 | the input's statement as for the other nodes, with the symbol bound to the group variable as well |
| SqlGeneration.SqlGenerator.InnerQueryOver | src/System.Data.WMI.EF6/Gen/SqlGenerator.cs:1002-1007 | a statement over the input's one, not finalized, its one FROM extent a new symbol named after the input variable and not bound in any scope |
| SqlGeneration.SqlGenerator.GroupByTexts | src/System.Data.WMI.EF6/Gen/SqlGenerator.cs:1018-1093 | one text per key and per aggregate argument, in visiting order; more keys than members of the result row is an error |
| SqlGeneration.SqlGenerator.VisitAggregateArgument | src/System.Data.WMI.EF6/Gen/SqlGenerator.cs:1064-1093 | an aggregate past the row's members is a null reference, one without arguments out of range; otherwise its one argument's text |
| SqlGeneration.SqlGenerator.VisitJoinExpression | src/System.Data.WMI.EF6/Gen/SqlGenerator.cs:1849-1922 | outside a join a new statement, inside one the current statement, with each input laid out in order as JoinedAs says and the ON condition when there is one |
| SqlGeneration.SqlGenerator.OwnedJoin | src/System.Data.WMI.EF6/Gen/SqlGenerator.cs:1856-1919 | the empty join statement pushed for the inputs and condition and popped again; the stacks and scopes are as before |
| SqlGeneration.SqlGenerator.JoinBody | src/System.Data.WMI.EF6/Gen/SqlGenerator.cs:1869-1917 | in a new scope, the inputs and the condition extend the current statement |
| SqlGeneration.SqlGenerator.JoinInputs | src/System.Data.WMI.EF6/Gen/SqlGenerator.cs:1871-1902 | the inputs in order, each extending the FROM clause and extents and binding its variable |
| SqlGeneration.SqlGenerator.JoinInputAt | src/System.Data.WMI.EF6/Gen/SqlGenerator.cs:1876-1899 | one input: its separator, its visit with the join flag, then ProcessJoinInputResult; one FROM extent more, named after its variable |
| SqlGeneration.SqlGenerator.AppendToFrom | src/System.Data.WMI.EF6/Gen/SqlGenerator.cs:1878-1879 | text appended to the current statement's FROM clause, nothing else changed |
| SqlGeneration.SqlGenerator.VisitJoinInput | src/System.Data.WMI.EF6/Gen/SqlGenerator.cs:1882-1896 | the join flag is pushed as scan or leftmost join, the input visited and the flag popped; the current statement only grows |
| SqlGeneration.SqlGenerator.ProcessJoinInputResult | src/System.Data.WMI.EF6/Gen/SqlGenerator.cs:1952-2042 | a reused leftmost join's new FROM extents become one join symbol bound to the variable; any other input's FROM item is appended with a new symbol added as a FROM extent and a join extent |
| SqlGeneration.SqlGenerator.ReuseJoinInput | src/System.Data.WMI.EF6/Gen/SqlGenerator.cs:2018-2041 | the FROM extents from the start on are replaced by one join symbol over them, bound to the variable |
| SqlGeneration.SqlGenerator.CompleteJoinInput | src/System.Data.WMI.EF6/Gen/SqlGenerator.cs:1964-1999 | the statement gains its default columns (one part per FROM extent, as `AddDefaultColumns` states them) and nothing else changes; a join or apply input gets a new nested join symbol over the statement's extents with no flattened extents; any other input gets one over the first extent's extents and flattened extents exactly when that extent is a join; the nested join's column list is the default columns; a statement over no extent, for any other input, is an index out of range |
| SqlGeneration.SqlGenerator.JoinInputItem | src/System.Data.WMI.EF6/Gen/SqlGenerator.cs:1957-2012 | a statement is " (" it " )": unchanged when it selects something, otherwise given its default columns as `AddDefaultColumns` states them, with a nested join symbol carrying those columns exactly when the input is a join or apply or the statement stands over a join; a scan is its text; anything else is wrapped; the symbol is new and named after the variable, and is not a join unless nested |
| SqlGeneration.SqlGenerator.AddJoinInput | src/System.Data.WMI.EF6/Gen/SqlGenerator.cs:2002-2016 | the FROM item is appended and the symbol added by AddFromSymbol and to all the join's extents |
| SqlGeneration.SqlGenerator.JoinCondition | src/System.Data.WMI.EF6/Gen/SqlGenerator.cs:1910-1913 | " ON " and the condition's text, visited outside any join |
| SqlGeneration.SqlGenerator.GenerateQuerySql | src/System.Data.WMI.EF6/Gen/SqlGenerator.cs:339-374 | a collection query is the top-most statement, any other "SELECT " and its translation; the text is the rendering of writing that fragment; a dangling variable reference is an error |
| SqlGeneration.SqlGenerator.TranslateQuery | src/System.Data.WMI.EF6/Gen/SqlGenerator.cs:341-364 | a collection query becomes the top-most statement; any other query becomes a builder holding "SELECT " and its translation |
| SqlGeneration.SqlGenerator.WriteCommand | src/System.Data.WMI.EF6/Gen/SqlGenerator.cs:424-433 | a new writer writes the fragment; the returned text is the rendering of exactly the writes that fragment calls for |
| SqlRules.IsCompatible | src/System.Data.WMI.EF6/Gen/SqlGenerator.cs:2662-2707 | every node kind the switch names gets an answer; any other kind is an InvalidOperationException |
| SqlRules.NewStatementReusable | src/System.Data.WMI.EF6/Gen/SqlGenerator.cs:2662-2707 | a statement nothing has been added to may be extended by every node kind |
| SqlRules.ReuseConditionsNest | src/System.Data.WMI.EF6/Gen/SqlGenerator.cs:2662-2707 | the reuse conditions nest: a statement a Skip may extend a Sort may too, a Sort's a Project's, a GroupBy's a Sort's and a Limit's, a Filter's a Project's and a Limit's; Limit and Element are alike |
| SqlRules.ReuseAfterSelectOrTop | src/System.Data.WMI.EF6/Gen/SqlGenerator.cs:2662-2707 | once a statement has a SELECT list only DISTINCT, a limit or an element access reuses it; once it has a TOP only a projection, a skip or a sort; a DISTINCT statement is never reused by a skip |
| SqlRules.ParenthesizedIffComplex | src/System.Data.WMI.EF6/Gen/SqlGenerator.cs:2717-2727 | an operand is in parentheses exactly when it is complex, and its text is kept |
| SqlRules.BinaryLayoutParts | src/System.Data.WMI.EF6/Gen/SqlGenerator.cs:1663-1681 | the operator follows the left operand's text (and its closing parenthesis); the layout has three parts plus two per complex operand |
| SqlRules.ComparisonOperatorInjective | src/System.Data.WMI.EF6/Gen/SqlGenerator.cs:602-632 | different comparisons are written with different operators |
| SqlRules.SetOpWrapping | src/System.Data.WMI.EF6/Gen/SqlGenerator.cs:2082-2112 | a side is wrapped in parentheses exactly when it has an ORDER BY, a LIMIT or an OFFSET, and the operator is on its own line between the sides |
| SqlRules.KeyEqualsSymmetric | src/System.Data.WMI.EF6/Gen/SqlGenerator.cs:3019-3059 | the key comparer is symmetric |
| SqlRules.KeyEqualsTransitive | src/System.Data.WMI.EF6/Gen/SqlGenerator.cs:3019-3059 | the key comparer is transitive |
| SqlRules.KeyEqualsReflexiveCases | src/System.Data.WMI.EF6/Gen/SqlGenerator.cs:3019-3059 | a variable, a parameter, or a property of a variable equals itself; a constant equals nothing, not even itself |
| SqlRules.AddToGroups | src/System.Data.WMI.EF6/Gen/SqlGenerator.cs:2740-2755 | adding a value keeps the number of groups or adds one, and leaves at least one group |
| SqlRules.AddToGroupsCounts | src/System.Data.WMI.EF6/Gen/KeyToListMap.cs:36-45 | each add files exactly one value |
| SqlRules.AddToGroupsKeys | src/System.Data.WMI.EF6/Gen/KeyToListMap.cs:36-45 | the keys stay in place, and a new key is appended exactly when no equal key was there |
| SqlRules.AddToGroupsDistinct | src/System.Data.WMI.EF6/Gen/KeyToListMap.cs:36-45 | no two groups ever have keys the comparer calls equal |
| SqlRules.BuildInMapMeaning | src/System.Data.WMI.EF6/Gen/SqlGenerator.cs:236-259 | the map is built exactly when every leaf of the OR tree is a key comparison or a key null test; it then holds one value per leaf and distinct keys |
| SqlRules.NonNullValues | src/System.Data.WMI.EF6/Gen/SqlGenerator.cs:453-454 | the group's values that are not null tests, all of them from the group |
| SqlRules.FirstNullTest | src/System.Data.WMI.EF6/Gen/SqlGenerator.cs:480 | the first null test among the values, or none exactly when there is no null test |
| SqlRules.InGroupLayoutCases | src/System.Data.WMI.EF6/Gen/SqlGenerator.cs:455-484 | one value and no null test is `key = v`; a null test alone is just the test; both are joined by " OR "; a group of nothing writes nothing |
| SqlRules.EscapeSingleQuote | src/System.Data.WMI.EF6/Gen/SqlGenerator.cs:2506-2509 | the text is enclosed in single quotes |
| SqlRules.EscapeSingleQuoteRoundTrip | src/System.Data.WMI.EF6/Gen/SqlGenerator.cs:2506-2509 | unescaping the literal gives back the string; the literal is two quotes plus one extra character per quote longer |
| SqlRules.HexDigit | src/System.Data.WMI.EF6/Gen/SqlGenerator.cs:2952-2975 | a nibble becomes one upper-case hexadecimal digit |
| SqlRules.HexFragments | src/System.Data.WMI.EF6/Gen/SqlGenerator.cs:2952-2975 | two hexadecimal digit characters per byte |
| SqlRules.HexFragmentsRoundTrip | src/System.Data.WMI.EF6/Gen/SqlGenerator.cs:2952-2975 | the digits read back as the bytes |
| SqlRules.AppendByteDigits | src/System.Data.WMI.EF6/Gen/SqlGenerator.cs:2970-2971 | one byte appends its high then its low digit |
| SqlRules.AppendHexDigits | src/System.Data.WMI.EF6/Gen/SqlGenerator.cs:2968-2972 | the loop appends the digits of every byte in order |
| SqlRules.ToBlobLiteral | src/System.Data.WMI.EF6/Gen/SqlGenerator.cs:2952-2975 | the builder gains NULL for no bytes, otherwise " X'", a pair of digits per byte and "' " |
| SqlRules.ConstantEncodings | src/System.Data.WMI.EF6/Gen/SqlGenerator.cs:642-732 | integers in decimal, booleans as 1 and 0, strings quoted with quotes doubled, byte arrays as a hexadecimal blob that decodes to the bytes; datetimeoffset, time and non-primitive types are NotSupported |
| SqlRules.VisitConstant | src/System.Data.WMI.EF6/Gen/SqlGenerator.cs:642-732 | the constant's literal in a new builder, or its error |
| SqlRules.NeedsInnerQuery | src/System.Data.WMI.EF6/Gen/SqlGenerator.cs:2985-2994 | true exactly when some aggregate's first argument is not a property of a variable, false when none is; an aggregate without arguments reached first is out of range |
| SqlRules.GetTargetTSql | src/System.Data.WMI.EF6/Gen/SqlGenerator.cs:835-866 | a defining query in parentheses, else the store table name, else the entity set's name |
| SqlRules.GenerateFunctionSql | src/System.Data.WMI.EF6/Gen/SqlGenerator.cs:379-416 | a command text gives a text command of it; otherwise a stored procedure named by the store function name, or by the function's name when none is given |
| SqlRules.FunctionName | src/System.Data.WMI.EF6/Gen/SqlGenerator.cs:2916-2939 | the store function name, or the function's name when none is given |
| SqlRules.NotLayoutWraps | src/System.Data.WMI.EF6/Gen/SqlGenerator.cs:1299-1302 | NOT (x) is never x itself |
| SqlRules.NotRenderingOf | src/System.Data.WMI.EF6/Gen/SqlGenerator.cs:1281-1303 | NOT over NOT flattens, over an equality becomes <>, over anything but NOT, IS EMPTY, IS NULL and equality is wrapped |
| SqlRules.NegatedLayouts | src/System.Data.WMI.EF6/Gen/SqlGenerator.cs:1281-1303 | negating IS EMPTY drops exactly the leading NOT, negating IS NULL changes only its last words, and the negated equality is the not-equals comparison |
| SqlRules.QuantifierDuality | src/System.Data.WMI.EF6/Gen/SqlGenerator.cs:1477-1497 | ALL is NOT EXISTS over the filter on NOT (predicate); ANY is EXISTS over the filter on the predicate |
| SqlRules.CaseBranchesAt | src/System.Data.WMI.EF6/Gen/SqlGenerator.cs:560-584 | branch i of a CASE is " WHEN (", its condition, ") THEN ", its result |
| SqlRules.ArgumentsLayoutAt | src/System.Data.WMI.EF6/Gen/SqlGenerator.cs:2136-2154 | argument i of a call follows a comma unless it is the first |
| SqlRules.UnionLadder | src/System.Data.WMI.EF6/Gen/SqlGenerator.cs:1759-1808 | four parts per element for scalars (aliased X), three for rows |
| SqlRules.UnionLadderLast | src/System.Data.WMI.EF6/Gen/SqlGenerator.cs:1759-1808 | the last rung holds the last element |
| SqlRules.ScalarUnionLadderAt | src/System.Data.WMI.EF6/Gen/SqlGenerator.cs:1759-1808 | rung i is UNION ALL (unless first), " SELECT ", element i, " AS X " |
| SqlRules.RowUnionLadderAt | src/System.Data.WMI.EF6/Gen/SqlGenerator.cs:1759-1808 | rung i is UNION ALL (unless first), " SELECT ", element i |
| SqlRules.RowLayout | src/System.Data.WMI.EF6/Gen/SqlGenerator.cs:2053-2080 | three parts per column of a row |
| SqlRules.GroupRowNames | src/System.Data.WMI.EF6/Gen/SqlGenerator.cs:995 | the result's member names, in order, exactly when it is a collection of rows; otherwise an invalid cast |
| SqlRules.KeyItems | src/System.Data.WMI.EF6/Gen/SqlGenerator.cs:1018-1062 | one SELECT item per key, five parts each, seven with an inner query |
| SqlRules.KeyItemsAliased | src/System.Data.WMI.EF6/Gen/SqlGenerator.cs:1018-1062 | the keys' items are aliased as the row's members in order |
| SqlRules.AggregateItemsAliased | src/System.Data.WMI.EF6/Gen/SqlGenerator.cs:1064-1103 | the aggregates' items are aliased as the row's members in order, after the keys |
| SqlRules.ColumnItemsAliased | src/System.Data.WMI.EF6/Gen/SqlGenerator.cs:1041-1088 | an inner query's items are aliased as the row's members in order |
| SqlRules.GroupBySelectAliased | src/System.Data.WMI.EF6/Gen/SqlGenerator.cs:1011-1103 | the whole SELECT list, keys then aggregates, names the row's members in order; the inner query names the same columns in the same order, and each outer key reads the inner query's column of its name |
| SqlRules.KeyItemsReference | src/System.Data.WMI.EF6/Gen/SqlGenerator.cs:1049-1055 | with an inner query the m-th key item reads the inner query's column named after the m-th member |
| DmlGeneration.ParameterName | src/System.Data.WMI.EF6/Gen/DmlSqlGenerator.cs:388-396 | a parameter is named "@p" followed by the counter in decimal |
| DmlGeneration.ParameterNamesDistinct | src/System.Data.WMI.EF6/Gen/DmlSqlGenerator.cs:388-396 | different counters give different parameter names |
| DmlGeneration.Register | src/System.Data.WMI.EF6/Gen/DmlSqlGenerator.cs:425-445 | without kept member values nothing happens; a non-property is an invalid cast; a NULL value binds nothing; otherwise the member is bound to the last parameter created (none is out of range); the text, counter and parameters are unchanged |
| DmlGeneration.DmlChildren | src/System.Data.WMI.EF6/Gen/DmlSqlGenerator.cs:567-780 | the children the generic overloads visit are smaller than their parent |
| DmlGeneration.TranslateExtends | src/System.Data.WMI.EF6/Gen/DmlSqlGenerator.cs:398-780 | a visit only appends text and parameters, creates one parameter per constant it meets, and keeps the parameters named @p0, @p1, ... in order |
| DmlGeneration.PredicateExtends | src/System.Data.WMI.EF6/Gen/DmlSqlGenerator.cs:498-505 | a predicate operator visit only appends, one parameter per constant |
| DmlGeneration.IsNullExtends | src/System.Data.WMI.EF6/Gen/DmlSqlGenerator.cs:447-451 | an IS NULL visit only appends, one parameter per constant |
| DmlGeneration.ConstantExtends | src/System.Data.WMI.EF6/Gen/DmlSqlGenerator.cs:460-464 | a constant visit appends one parameter, named after the counter |
| DmlGeneration.TranslateAllExtends | src/System.Data.WMI.EF6/Gen/DmlSqlGenerator.cs:755-760 | visiting a list only appends, one parameter per constant of the list |
| DmlGeneration.ExpressionTranslator.constructor | src/System.Data.WMI.EF6/Gen/DmlSqlGenerator.cs:364-374 | empty parameters, counter 0, the given text, and a member-value map only when values are to be kept |
| DmlGeneration.ExpressionTranslator.Append | src/System.Data.WMI.EF6/Gen/DmlSqlGenerator.cs:364-374 | text appended to the command, nothing else changed |
| DmlGeneration.ExpressionTranslator.CreateParameter | src/System.Data.WMI.EF6/Gen/DmlSqlGenerator.cs:388-396 | a parameter named after the counter, with the value and type given, appended to the parameters; the counter is incremented |
| DmlGeneration.ExpressionTranslator.CreateConstantParameter | src/System.Data.WMI.EF6/Gen/DmlSqlGenerator.cs:380-385 | a parameter with the DbType of the constant's primitive kind, named after the counter |
| DmlGeneration.ExpressionTranslator.RegisterMemberValue | src/System.Data.WMI.EF6/Gen/DmlSqlGenerator.cs:425-445 | the translator's new state is what Register gives, or its error |
| DmlGeneration.ExpressionTranslator.Accept | src/System.Data.WMI.EF6/Gen/DmlSqlGenerator.cs:398-780 | the translator's new state is what Translate gives for the expression, or its error |
| DmlGeneration.ExpressionTranslator.VisitIsNull | src/System.Data.WMI.EF6/Gen/DmlSqlGenerator.cs:447-451 | the argument, then " IS NULL", as Translate gives |
| DmlGeneration.ExpressionTranslator.VisitConstant | src/System.Data.WMI.EF6/Gen/DmlSqlGenerator.cs:460-464 | a new parameter written by its name, as Translate gives |
| DmlGeneration.ExpressionTranslator.VisitLeaf | src/System.Data.WMI.EF6/Gen/DmlSqlGenerator.cs:466-481 | NULL is "NULL", a scan its target (a set with a defining query is NotSupported), a property its name, as Translate gives |
| DmlGeneration.ExpressionTranslator.VisitCase | src/System.Data.WMI.EF6/Gen/DmlSqlGenerator.cs:522-528 | the children in order then the else branch, as Translate gives |
| DmlGeneration.ExpressionTranslator.VisitBinary | src/System.Data.WMI.EF6/Gen/DmlSqlGenerator.cs:498-505 | "(", left, operator, right, ")", and a comparison registers its value, as Translate gives |
| DmlGeneration.ExpressionTranslator.VisitList | src/System.Data.WMI.EF6/Gen/DmlSqlGenerator.cs:483-496 | the visits of the list in order with the separator between them, as TranslateAll gives |
| DmlGeneration.FirstMissing | src/System.Data.WMI.EF6/Gen/DmlSqlGenerator.cs:214-229 | the first key member without a value; all before it have one |
| DmlGeneration.VisitSetClauses | src/System.Data.WMI.EF6/Gen/DmlSqlGenerator.cs:30-41 | the SET clauses in order, "prop = value" comma separated, as SetList gives |
| DmlGeneration.VisitColumns | src/System.Data.WMI.EF6/Gen/DmlSqlGenerator.cs:106-117 | the column names in parentheses, comma separated, as ColumnList gives |
| DmlGeneration.VisitValues | src/System.Data.WMI.EF6/Gen/DmlSqlGenerator.cs:120-133 | the values comma separated, each value registered for its column, as ValueList gives |
| DmlGeneration.DoAllKeyMembersHaveValues | src/System.Data.WMI.EF6/Gen/DmlSqlGenerator.cs:214-229 | no key member is missing exactly when all are bound; otherwise the first missing one; without kept values, any key member is a null reference |
| DmlGeneration.AppendKeyEqualities | src/System.Data.WMI.EF6/Gen/DmlSqlGenerator.cs:307-321 | " AND key = @pN" for each key member in order |
| DmlGeneration.AppendKeyPredicate | src/System.Data.WMI.EF6/Gen/DmlSqlGenerator.cs:284-337 | the translator's new state is the key predicate's, or its error |
| DmlGeneration.AppendSelectFrom | src/System.Data.WMI.EF6/Gen/DmlSqlGenerator.cs:272-282 | the SELECT, FROM and WHERE changes() > 0 lines, as SelectFrom gives |
| DmlGeneration.GenerateReturningSql | src/System.Data.WMI.EF6/Gen/DmlSqlGenerator.cs:265-340 | nothing without a returning expression; otherwise the returning SELECT and the key predicate, then ";" |
| DmlGeneration.AppendSetLine | src/System.Data.WMI.EF6/Gen/DmlSqlGenerator.cs:30-60 | the SET line, as SetLine gives |
| DmlGeneration.AppendWhereLine | src/System.Data.WMI.EF6/Gen/DmlSqlGenerator.cs:63-65 | "WHERE ", the predicate and ";", as WhereLine gives |
| DmlGeneration.GenerateUpdateSql | src/System.Data.WMI.EF6/Gen/DmlSqlGenerator.cs:19-72 | the text and parameters of UpdateSql, or its error |
| DmlGeneration.AppendUpdateRest | src/System.Data.WMI.EF6/Gen/DmlSqlGenerator.cs:29-69 | the SET line, the WHERE line and the returning SELECT after the target, or the first error among them, as UpdateRest gives |
| DmlGeneration.GenerateDeleteSql | src/System.Data.WMI.EF6/Gen/DmlSqlGenerator.cs:74-92 | the text and parameters of DeleteSql, or its error |
| DmlGeneration.AppendInsertRow | src/System.Data.WMI.EF6/Gen/DmlSqlGenerator.cs:103-136 | the column list and VALUES row, or DEFAULT VALUES, as InsertRow gives |
| DmlGeneration.GenerateInsertSql | src/System.Data.WMI.EF6/Gen/DmlSqlGenerator.cs:94-143 | the text and parameters of InsertSql, or its error |
| DmlGeneration.SetListExtends | src/System.Data.WMI.EF6/Gen/DmlSqlGenerator.cs:30-41 | the SET clauses only append and keep the parameters numbered |
| DmlGeneration.ColumnListExtends | src/System.Data.WMI.EF6/Gen/DmlSqlGenerator.cs:106-117 | the column list only appends and keeps the parameters numbered |
| DmlGeneration.ValueListExtends | src/System.Data.WMI.EF6/Gen/DmlSqlGenerator.cs:120-133 | the VALUES list only appends and keeps the parameters numbered |
| DmlGeneration.SetLineExtends | src/System.Data.WMI.EF6/Gen/DmlSqlGenerator.cs:30-60 | the SET line only appends and keeps the parameters numbered |
| DmlGeneration.NoSetClauseParameter | src/System.Data.WMI.EF6/Gen/DmlSqlGenerator.cs:43-58 | without SET clauses the line is "SET @pN = 0" with one new parameter, a boxed Int32 zero |
| DmlGeneration.WhereLineExtends | src/System.Data.WMI.EF6/Gen/DmlSqlGenerator.cs:63-65 | the WHERE line only appends, keeps the parameters numbered and ends with ";" and a new line |
| DmlGeneration.InsertRowExtends | src/System.Data.WMI.EF6/Gen/DmlSqlGenerator.cs:103-136 | the INSERT row only appends, keeps the parameters numbered and ends with ";" and a new line |
| DmlGeneration.KeyPredicateWrites | src/System.Data.WMI.EF6/Gen/DmlSqlGenerator.cs:284-337 | the key predicate only writes text |
| DmlGeneration.SelectFromExtends | src/System.Data.WMI.EF6/Gen/DmlSqlGenerator.cs:272-282 | the SELECT lines only append, start with "SELECT " and end with "WHERE changes() > 0" |
| DmlGeneration.ReturningExtends | src/System.Data.WMI.EF6/Gen/DmlSqlGenerator.cs:265-340 | the returning SELECT only appends; when there is one it starts with "SELECT ", holds the changes() filter and ends with ";" |
| DmlGeneration.UpdateWellFormed | src/System.Data.WMI.EF6/Gen/DmlSqlGenerator.cs:19-72 | an UPDATE names its parameters @p0, @p1, ... in order, keeps member values exactly when it has a returning expression, starts with "UPDATE " and ends with ";" |
| DmlGeneration.InsertWellFormed | src/System.Data.WMI.EF6/Gen/DmlSqlGenerator.cs:94-143 | an INSERT names its parameters in order, keeps member values exactly when it has a returning expression, starts with "INSERT INTO " and ends with ";" |
| DmlGeneration.InsertRestExtends | src/System.Data.WMI.EF6/Gen/DmlSqlGenerator.cs:103-139 | what follows an INSERT's target only appends and ends with ";" |
| DmlGeneration.DeleteWellFormed | src/System.Data.WMI.EF6/Gen/DmlSqlGenerator.cs:74-92 | a DELETE names its parameters in order, one per constant of the target and the predicate, keeps no member values, starts with "DELETE FROM " and ends with ";" |
| DmlGeneration.NumberedDistinct | src/System.Data.WMI.EF6/Gen/DmlSqlGenerator.cs:388-396 | the parameters of a statement have pairwise different names |
| DmlGeneration.TranslateScan | src/System.Data.WMI.EF6/Gen/DmlSqlGenerator.cs:466-471 | a scan writes its target; a set with a defining query is NotSupported naming the function mapping it needs |
| DmlGeneration.UpdateDefiningQueryRejected | src/System.Data.WMI.EF6/Gen/DmlSqlGenerator.cs:19-26 | an UPDATE of a set with a defining query is refused, naming UpdateFunction, whatever else the tree holds |
| DmlGeneration.InsertDefiningQueryRejected | src/System.Data.WMI.EF6/Gen/DmlSqlGenerator.cs:94-101 | an INSERT into a set with a defining query is refused, naming InsertFunction |
| DmlGeneration.DeleteDefiningQueryRejected | src/System.Data.WMI.EF6/Gen/DmlSqlGenerator.cs:74-81 | a DELETE from a set with a defining query is refused, naming DeleteFunction |
| DmlGeneration.UpdateRestExtends | src/System.Data.WMI.EF6/Gen/DmlSqlGenerator.cs:27-68 | whatever follows an UPDATE's SET line only appends |
| DmlGeneration.EmptySetLineAfterTarget | src/System.Data.WMI.EF6/Gen/DmlSqlGenerator.cs:25-58 | an UPDATE without SET clauses reads "UPDATE table", a new line, "SET @p0 = 0" |
| DmlGeneration.UpdateSqlAfterTarget | src/System.Data.WMI.EF6/Gen/DmlSqlGenerator.cs:25-68 | an UPDATE whose target visit succeeds goes on with its SET, WHERE and returning parts |
| DmlGeneration.EmptyUpdateSetsParameter | src/System.Data.WMI.EF6/Gen/DmlSqlGenerator.cs:43-58 | an UPDATE of a scan without SET clauses writes "SET @p0 = 0" with @p0 a boxed Int32 zero |
| DmlGeneration.InsertDefaultValues | src/System.Data.WMI.EF6/Gen/DmlSqlGenerator.cs:135-136 | an INSERT without SET clauses or returning expression into a plain table is "INSERT INTO table DEFAULT VALUES;" with no parameter |
| DmlGeneration.ConstantRegistered | src/System.Data.WMI.EF6/Gen/DmlSqlGenerator.cs:128-130 | a value registered right after its constant was visited is bound to the parameter created for that constant |
| DmlGeneration.KeyEqualitiesFirst | src/System.Data.WMI.EF6/Gen/DmlSqlGenerator.cs:307-321 | the key equalities follow the key order: the first key's comes first |
| DmlGeneration.IntegerKeyPolicy | src/System.Data.WMI.EF6/Gen/DmlSqlGenerator.cs:289-305 | an integer primary key: " AND key = " and its parameter when bound; else last_insert_rowid() after an INSERT, NotSupported after an UPDATE |
| DmlGeneration.BoundKeyPolicy | src/System.Data.WMI.EF6/Gen/DmlSqlGenerator.cs:306-321 | any other key with all members bound: one equality per key member, in key order |
| DmlGeneration.UnboundKeyPolicy | src/System.Data.WMI.EF6/Gen/DmlSqlGenerator.cs:322-337 | any other key with a member unbound: the rowid of the last insert after an INSERT, NotSupported naming the first unbound member after an UPDATE |
| SqlChecking.Both | src/System.Data.WMI.EF6/Gen/SqlChecker.cs:262-267 | two visits made in turn: an exception from either propagates, the first one's first; otherwise their answers or-ed |
| SqlChecking.BothAlgebra | src/System.Data.WMI.EF6/Gen/SqlChecker.cs:290-300 | combining visits is associative with "false" as its unit, so a list visit may be regrouped |
| SqlChecking.Children | src/System.Data.WMI.EF6/Gen/SqlChecker.cs:12-250 | every child the checker visits is smaller than the visited node, so the visit terminates |
| SqlChecking.CheckListAppend | src/System.Data.WMI.EF6/Gen/SqlChecker.cs:290-300 | visiting a list split in two is visiting both halves in turn |
| SqlChecking.CheckIsFold | src/System.Data.WMI.EF6/Gen/SqlChecker.cs:12-250 | APPLY throws "apply expression"; SKIP visits its input, sort keys and count and answers true unless they throw; every other node or-s its children's answers |
| SqlChecking.CaseFold | src/System.Data.WMI.EF6/Gen/SqlChecker.cs:27-34 | a CASE or-s its WHEN list, THEN list and ELSE |
| SqlChecking.SortFold | src/System.Data.WMI.EF6/Gen/SqlChecker.cs:222-235 | a SORT or-s its input and sort keys; a SKIP answers true once they are visited |
| SqlChecking.GroupByFold | src/System.Data.WMI.EF6/Gen/SqlChecker.cs:101-108 | a GROUP BY or-s its input, keys and aggregate arguments |
| SqlChecking.CheckMeaning | src/System.Data.WMI.EF6/Gen/SqlChecker.cs:12-315 | the checker throws exactly when the tree holds an APPLY, always with the same message, and otherwise answers true exactly when the tree holds a SKIP |
| SqlChecking.CheckFailsOnApply | src/System.Data.WMI.EF6/Gen/SqlChecker.cs:17-20 | the checker throws exactly when an APPLY is reachable |
| SqlChecking.CheckListFailsOnApply | src/System.Data.WMI.EF6/Gen/SqlChecker.cs:290-300 | a list visit throws exactly when one of its elements holds an APPLY |
| SqlChecking.CheckFindsSkip | src/System.Data.WMI.EF6/Gen/SqlChecker.cs:222-228 | when the checker does not throw, it answers true exactly when a SKIP is reachable |
| SqlChecking.CheckListFindsSkip | src/System.Data.WMI.EF6/Gen/SqlChecker.cs:290-300 | a list visit that does not throw answers true exactly when one of its elements holds a SKIP |
| SqlChecking.LeafAndSkipAnswers | src/System.Data.WMI.EF6/Gen/SqlChecker.cs:46-250 | constants, NULL, parameter and variable references and scans answer false; a SKIP answers true unless an APPLY below it throws |
| StringUtil.Converted | src/System.Data.WMI.EF6/Gen/StringUtil.cs:15-38 | one converted text per value, in order |
| StringUtil.BuildDelimitedList | src/System.Data.WMI.EF6/Gen/StringUtil.cs:15-38 | an empty string for a null list; otherwise the converted values (the invariant conversion when no converter is given) with the delimiter (", " when none is given) before every value but the first |
| StringUtil.JoinStartsWithFirst | src/System.Data.WMI.EF6/Gen/StringUtil.cs:27-35 | a delimited list starts with its first item, never with the delimiter |
| StringUtil.JoinEndsWithLast | src/System.Data.WMI.EF6/Gen/StringUtil.cs:27-35 | a delimited list ends with its last item, never with the delimiter |
| StringUtil.JoinLength | src/System.Data.WMI.EF6/Gen/StringUtil.cs:27-35 | a delimited list is as long as its items plus one delimiter between each consecutive pair |
| StringUtil.FormatIndex | src/System.Data.WMI.EF6/Gen/StringUtil.cs:40-44 | the variable name, "[", the index in decimal, "]", and nothing else |
| StringUtil.IndentNewLine | src/System.Data.WMI.EF6/Gen/StringUtil.cs:57-62 | the builder, a new line, then four spaces per indentation level (none for a level of zero or less) |
| StringUtil.IsNullOrEmptyOrWhiteSpace | src/System.Data.WMI.EF6/Gen/StringUtil.cs:70-73 | true exactly when the value is null or every character is white space |
| StringUtil.IsNullOrEmptyOrWhiteSpaceFrom | src/System.Data.WMI.EF6/Gen/StringUtil.cs:75-82 | true for null; a negative offset into a non-empty string is out of range; otherwise true exactly when every character from the offset to the end is white space |
| StringUtil.IsNullOrEmptyOrWhiteSpaceRange | src/System.Data.WMI.EF6/Gen/StringUtil.cs:84-95 | true for null; otherwise the scan runs from the offset to the smaller of the length argument and the string's length, out of range for a negative offset, and answers whether every scanned character is white space |
| StringUtil.SortOrdinalCorrect | src/System.Data.WMI.EF6/Gen/StringUtil.cs:160 | the ordinal sort returns a sorted permutation of its input |
| StringUtil.ToSeparatedStringPrivate | src/System.Data.WMI.EF6/Gen/StringUtil.cs:144-168 | a null list appends nothing; otherwise every item's text (null items as the null value), sorted ordinally when asked, joined by the separator, appended to the builder |
| StringUtil.ToSeparatedString | src/System.Data.WMI.EF6/Gen/StringUtil.cs:126-131 | the items' texts joined by the separator in list order, null items as the null value |
| StringUtil.AppendSeparatedString | src/System.Data.WMI.EF6/Gen/StringUtil.cs:133-136 | the builder followed by the items joined by the separator, null items empty |
| StringUtil.AppendSeparatedStringOrNull | src/System.Data.WMI.EF6/Gen/StringUtil.cs:139-142 | the builder followed by the items joined by the separator, null items as the null value |
| StringUtil.ToSeparatedStringSorted | src/System.Data.WMI.EF6/Gen/StringUtil.cs:170-175 | the items' texts sorted ordinally and joined by the separator |
| StringUtil.AppendSeparatedStringSorted | src/System.Data.WMI.EF6/Gen/StringUtil.cs:177-180 | the builder followed by the items sorted ordinally and joined by the separator |
| StringUtil.ToCommaSeparatedString | src/System.Data.WMI.EF6/Gen/StringUtil.cs:106-109 | the items joined by ", ", null items empty |
| StringUtil.AppendCommaSeparatedString | src/System.Data.WMI.EF6/Gen/StringUtil.cs:111-114 | the builder followed by the items joined by ", " |
| StringUtil.ToCommaSeparatedStringSorted | src/System.Data.WMI.EF6/Gen/StringUtil.cs:116-119 | the items sorted ordinally and joined by ", " |
| StringUtil.AppendCommaSeparatedStringSorted | src/System.Data.WMI.EF6/Gen/StringUtil.cs:121-124 | the builder followed by the items sorted ordinally and joined by ", " |
| StringUtil.MembersToCommaSeparatedString | src/System.Data.WMI.EF6/Gen/StringUtil.cs:97-104 | "{", the members joined by ", ", "}" |
| StringUtil.SortedSeparatedText | src/System.Data.WMI.EF6/Gen/StringUtil.cs:144-168 | the sorted form writes a sorted permutation of the texts the unsorted form writes |
| Text.NatToString | src/System.Data.WMI.EF6/Gen/DmlSqlGenerator.cs:390 | the invariant decimal form of a natural number: at least one digit, digits only, the last one the units digit |
| Text.IntToString | src/System.Data.WMI.EF6/Gen/SkipClause.cs:27 | the invariant decimal form of an integer: non-empty, with a leading '-' exactly for negatives |
| Text.NatToStringLength | src/System.Data.WMI.EF6/Gen/DmlSqlGenerator.cs:390 | a number of at least k+1 digits is written with more than k characters |
| Text.IntToStringInjective | src/System.Data.WMI.EF6/Gen/DmlSqlGenerator.cs:390 | different counters are written differently, so the numbered names they make differ |
| Text.Fold | src/System.Data.WMI.EF6/Gen/SqlGenerator.cs:344-345 | the ignore-case key of a name: every character folded, the length kept |
| Text.FoldAppend | src/System.Data.WMI.EF6/Gen/SqlGenerator.cs:344-345 | the key of a concatenation is the concatenation of the keys |
| Text.FoldIntToString | src/System.Data.WMI.EF6/Gen/Symbol.cs:58 | numbers are their own ignore-case key |
| Text.FoldSuffixInjective | src/System.Data.WMI.EF6/Gen/Symbol.cs:53-59 | a name followed by two different counters gives two different ignore-case keys, so the renaming loop produces new names |
| Text.ToLower | src/System.Data.WMI.EF6/WMIProviderManifest.cs:53 | the invariant lower case of a name: every upper-case letter lowered, the length kept |
| Text.ToLowerKeeps | src/System.Data.WMI.EF6/WMIProviderManifest.cs:53 | a name without upper-case letters is its own lower case |
| Text.Repeat | src/System.Data.WMI.EF6/Gen/StringUtil.cs:57-62 | n copies of a string are n times as long |
| Text.JoinSnoc | src/System.Data.WMI.EF6/Gen/StringUtil.cs:27-35 | joining one more item appends the separator and the item |
| Text.ReplaceAbsent | src/System.Data.WMI.EF6/Gen/SqlGenerator.cs:2506-2509 | replacing a character that does not occur leaves the text as it is |
| Text.ReplaceDoubleUndouble | src/System.Data.WMI/WMICommandBuilder.cs:266 | doubling a one-character quote and then un-doubling it gives the original text back |
| Text.ReplaceCharLength | src/System.Data.WMI.EF6/Gen/SqlGenerator.cs:2506-2509 | replacing a character lengthens the text by the extra length of the replacement at each occurrence |
| CommandBuilder.QuotedIdentifier | src/System.Data.WMI/WMICommandBuilder.cs:261-266 | an empty prefix, suffix or identifier gives the identifier back; otherwise the text starts with the prefix and ends with the suffix |
| CommandBuilder.UnquotedIdentifier | src/System.Data.WMI/WMICommandBuilder.cs:281-290 | an empty prefix, suffix or identifier, or one that does not start with the prefix and end with the suffix ignoring case, is given back as it is; the only failure is an identifier shorter than prefix and suffix together, out of range |
| CommandBuilder.QuoteRoundTrip | src/System.Data.WMI/WMICommandBuilder.cs:257-291 | unquoting a quoted identifier gives the identifier back, for any prefix and a one-character suffix |
| CommandBuilder.UnquoteTotal | src/System.Data.WMI/WMICommandBuilder.cs:277-291 | with one-character prefix and suffix that differ ignoring case, unquoting never fails |
| CommandBuilder.ParameterName | src/System.Data.WMI/WMICommandBuilder.cs:196-199 | "@" followed by the name |
| CommandBuilder.OrdinalParameterName | src/System.Data.WMI/WMICommandBuilder.cs:208-211 | "@param" followed by the ordinal in decimal |
| CommandBuilder.OrdinalParameterNamesDistinct | src/System.Data.WMI/WMICommandBuilder.cs:208-211 | different ordinals give different parameter names |
| CommandBuilder.ParameterPlaceholder | src/System.Data.WMI/WMICommandBuilder.cs:220-223 | the placeholder of an ordinal is its parameter name |
| CommandBuilder.WmiCommandBuilder.constructor | src/System.Data.WMI/WMICommandBuilder.cs:14-28 | not disposed, quote prefix "[" and suffix "]", and the base defaults for the catalog location and the separators |
| CommandBuilder.WmiCommandBuilder.CheckDisposed | src/System.Data.WMI/WMICommandBuilder.cs:125-129 | throws ObjectDisposed exactly when the builder is disposed |
| CommandBuilder.WmiCommandBuilder.Dispose | src/System.Data.WMI/WMICommandBuilder.cs:139-164 | the builder is disposed, whether or not it was before, and keeps its settings |
| CommandBuilder.WmiCommandBuilder.QuotePrefix | src/System.Data.WMI/WMICommandBuilder.cs:74-86 | the prefix, or ObjectDisposed exactly when disposed |
| CommandBuilder.WmiCommandBuilder.QuoteSuffix | src/System.Data.WMI/WMICommandBuilder.cs:93-105 | the suffix, or ObjectDisposed exactly when disposed |
| CommandBuilder.WmiCommandBuilder.GetCatalogLocation | src/System.Data.WMI/WMICommandBuilder.cs:35-47 | the catalog location, or ObjectDisposed exactly when disposed |
| CommandBuilder.WmiCommandBuilder.CatalogSeparator | src/System.Data.WMI/WMICommandBuilder.cs:54-66 | the catalog separator, or ObjectDisposed exactly when disposed |
| CommandBuilder.WmiCommandBuilder.SchemaSeparator | src/System.Data.WMI/WMICommandBuilder.cs:111-123 | the schema separator, or ObjectDisposed exactly when disposed |
| CommandBuilder.WmiCommandBuilder.SetQuotePrefix | src/System.Data.WMI/WMICommandBuilder.cs:74-86 | a disposed builder throws and keeps its prefix; otherwise the prefix is set; nothing else changes |
| CommandBuilder.WmiCommandBuilder.SetQuoteSuffix | src/System.Data.WMI/WMICommandBuilder.cs:93-105 | a disposed builder throws and keeps its suffix; otherwise the suffix is set; nothing else changes |
| CommandBuilder.WmiCommandBuilder.SetCatalogLocation | src/System.Data.WMI/WMICommandBuilder.cs:35-47 | a disposed builder throws and keeps its location; otherwise the location is set; nothing else changes |
| CommandBuilder.WmiCommandBuilder.SetCatalogSeparator | src/System.Data.WMI/WMICommandBuilder.cs:54-66 | a disposed builder throws and keeps its separator; otherwise the separator is set; nothing else changes |
| CommandBuilder.WmiCommandBuilder.SetSchemaSeparator | src/System.Data.WMI/WMICommandBuilder.cs:111-123 | a disposed builder throws and keeps its separator; otherwise the separator is set; nothing else changes |
| CommandBuilder.WmiCommandBuilder.QuoteIdentifier | src/System.Data.WMI/WMICommandBuilder.cs:257-267 | ObjectDisposed when disposed; otherwise the identifier quoted with the builder's prefix and suffix |
| CommandBuilder.WmiCommandBuilder.UnquoteIdentifier | src/System.Data.WMI/WMICommandBuilder.cs:277-291 | ObjectDisposed when disposed; otherwise the identifier unquoted with the builder's prefix and suffix |
| CommandBuilder.NonKeysNotUnique | src/System.Data.WMI/WMICommandBuilder.cs:331-341 | the same rows in the same order; key rows untouched; every non-key row marked not unique, its other fields kept |
| CommandBuilder.HasSchemaPrimaryKey | src/System.Data.WMI/WMICommandBuilder.cs:320-329 | true exactly when some row of the schema is a key column |
| CommandBuilder.ResetIsUniqueSchemaColumn | src/System.Data.WMI/WMICommandBuilder.cs:331-341 | the schema becomes its rows with every non-key column marked not unique |
| CommandBuilder.AdjustSchemaTable | src/System.Data.WMI/WMICommandBuilder.cs:304-318 | with a key column, non-key columns are marked not unique; without one, the schema is unchanged |
| MetadataHelpers.ParameterModeToParameterDirection | src/System.Data.WMI.EF6/Gen/MetadataHelpers.cs:13-33 | In, Out, InOut and ReturnValue map one to one onto Input, Output, InputOutput and ReturnValue |
| MetadataHelpers.GetElementTypeUsage | src/System.Data.WMI.EF6/Gen/MetadataHelpers.cs:52-58 | the element type exactly for a collection type, none otherwise |
| MetadataHelpers.GetProperties | src/System.Data.WMI.EF6/Gen/MetadataHelpers.cs:77-90 | the properties of a complex, entity or row type, an empty list for any other type |
| MetadataHelpers.TryGetPrimitiveTypeKind | src/System.Data.WMI.EF6/Gen/MetadataHelpers.cs:158-168 | a kind exactly for a primitive type, and it is that type's kind |
| MetadataHelpers.GetPrimitiveTypeKind | src/System.Data.WMI.EF6/Gen/MetadataHelpers.cs:170-179 | the kind exactly for a primitive type; otherwise NotSupported "Cannot create parameter of non-primitive type" |
| MetadataHelpers.GetDbType | src/System.Data.WMI.EF6/Gen/MetadataHelpers.cs:201-227 | a DbType exactly for the kinds the table lists; InvalidOperation "Unknown PrimitiveTypeKind" with the kind's name otherwise |
| MetadataHelpers.GetDbTypeInjective | src/System.Data.WMI.EF6/Gen/MetadataHelpers.cs:201-227 | no two kinds map to the same DbType |
| MetadataHelpers.GetFacetValueOrDefault | src/System.Data.WMI.EF6/Gen/MetadataHelpers.cs:283-289 | the facet's value when present, non-null and bounded; the default otherwise |
| MetadataHelpers.GetFacet | src/System.Data.WMI.EF6/Gen/MetadataHelpers.cs:296-303 | a description with exactly the given name, taken from the collection; none when no description has that name |
| MetadataHelpers.IsFacetValueConstant | src/System.Data.WMI.EF6/Gen/MetadataHelpers.cs:291-294 | whether the named facet is constant; a non-primitive type is an invalid cast and a missing facet a null reference |
| MetadataHelpers.TryGetTypeFacetDescriptionByName | src/System.Data.WMI.EF6/Gen/MetadataHelpers.cs:312-327 | only primitive types have facet descriptions; the one found belongs to the type |
| MetadataHelpers.FindIgnoreCase | src/System.Data.WMI.EF6/Gen/MetadataHelpers.cs:318-324 | a description found belongs to the collection |
| MetadataHelpers.IsNullable | src/System.Data.WMI.EF6/Gen/MetadataHelpers.cs:329-333 | false without a Nullable facet; true only when the facet is true; the facet's value when it is a boolean |
| MetadataHelpers.TryGetIntFacetValue | src/System.Data.WMI.EF6/Gen/MetadataHelpers.cs:348-359 | nothing exactly when the facet is missing, null or unbounded; a value found is the facet's integer |
| MetadataHelpers.TryGetBooleanFacetValue | src/System.Data.WMI.EF6/Gen/MetadataHelpers.cs:374-384 | nothing exactly when the facet is missing or null; a value found is the facet's boolean |
| MetadataHelpers.TryGetMaxLength | src/System.Data.WMI.EF6/Gen/MetadataHelpers.cs:335-346 | nothing for types other than string and binary; a length found is the MaxLength facet's integer |
| MetadataHelpers.TryGetIsFixedLength | src/System.Data.WMI.EF6/Gen/MetadataHelpers.cs:361-372 | nothing for types other than string and binary; a value found is the FixedLength facet's boolean |
| MetadataHelpers.TryGetIsUnicode | src/System.Data.WMI.EF6/Gen/MetadataHelpers.cs:386-395 | nothing for types other than string; a value found is the Unicode facet's boolean |
| ProviderManifest.GetDbInformation | src/System.Data.WMI.EF6/WMIProviderManifest.cs:29-41 | the conceptual schema definition is a null reader; the store schema definition and mapping are XML resources; any other name is ProviderIncompatible |
| ProviderManifest.TryGetByteFacetValue | src/System.Data.WMI.EF6/WMIProviderManifest.cs:266-303 | nothing exactly when the facet is missing, null or unbounded; a value found is the facet's byte |
| ProviderManifest.GetEdmType | src/System.Data.WMI.EF6/WMIProviderManifest.cs:49-130 | a null store type is ArgumentNull; a lower-cased name missing from the store-type table is an ArgumentException; a result carries the table's EDM kind; a string result comes from a character store type, unicode exactly for nvarchar and nchar, fixed length exactly for char and nchar |
| ProviderManifest.Facet | src/System.Data.WMI.EF6/WMIProviderManifest.cs:179-203 | a facet is read exactly when the type has it |
| ProviderManifest.BoolOr | src/System.Data.WMI.EF6/WMIProviderManifest.cs:179-202 | a null facet gives the default, a boolean facet its value, anything else is an invalid cast |
| ProviderManifest.BoundedLength | src/System.Data.WMI.EF6/WMIProviderManifest.cs:180-183 | no length exactly for a null or unbounded facet; otherwise the facet's integer |
| ProviderManifest.GetStoreType | src/System.Data.WMI.EF6/WMIProviderManifest.cs:137-245 | a null type is ArgumentNull; a non-primitive type an ArgumentException; SByte, Time, DateTimeOffset and the spatial kinds are NotSupported; a fixed-length string or binary result always carries a length |
| ProviderManifest.GetStoreTypeScalars | src/System.Data.WMI.EF6/WMIProviderManifest.cs:149-164 | Boolean, Byte, Int16, Int32, Int64, Guid, Double, Single and DateTime map to bit, tinyint, smallint, int, integer, uniqueidentifier, float, real and datetime |
| ProviderManifest.GetStoreTypeDecimalDefaults | src/System.Data.WMI.EF6/WMIProviderManifest.cs:165-175 | a decimal without precision or scale facets becomes decimal(18, 0) |
| ProviderManifest.GetStoreTypeString | src/System.Data.WMI.EF6/WMIProviderManifest.cs:198-238 | a string type becomes nchar, nvarchar, char or varchar by its Unicode (null counts as true) and FixedLength (null counts as false) facets; an unbounded fixed-length string gets Int32.MinValue as its length |
| ProviderManifest.GetEdmTypeString | src/System.Data.WMI.EF6/WMIProviderManifest.cs:76-121 | a character store type maps to a string whose unicode and fixed-length flags follow its name and whose length is the store type's MaxLength |
| ProviderManifest.LowerCaseStoreNames | src/System.Data.WMI.EF6/WMIProviderManifest.cs:53 | the character store type names are already lower case |
| ProviderManifest.StringStoreTypeRoundTrip | src/System.Data.WMI.EF6/WMIProviderManifest.cs:49-238 | a character store type with a length maps to an EDM string and back to the same store type name, flags and length |
| ProviderManifest.StringStoreToEdm | src/System.Data.WMI.EF6/WMIProviderManifest.cs:76-121 | a character store type with a length maps to an EDM string with the flags its name gives and that length |
| ProviderManifest.EdmStringToStore | src/System.Data.WMI.EF6/WMIProviderManifest.cs:198-238 | an EDM string with a length maps to nchar, char, nvarchar or varchar by its flags, keeping the length |
| ProviderManifest.EdmStringUsageFacets | src/System.Data.WMI.EF6/WMIProviderManifest.cs:119 | a created string usage carries its Unicode, FixedLength and MaxLength facets |
| ProviderServices.GetDbProviderManifestToken | src/System.Data.WMI.EF6/WMIProviderServices.cs:95-104 | a null connection is ArgumentNull "connection"; a null or empty connection string is ArgumentNull "ConnectionString"; otherwise the token is the connection string itself |
| ProviderServices.GetParameterSize | src/System.Data.WMI.EF6/WMIProviderServices.cs:224-231 | the MaxLength facet when present; without one, Int32.MaxValue for an output parameter and no size for an input |
| ProviderServices.GetStringDbType | src/System.Data.WMI.EF6/WMIProviderServices.cs:236-253 | a DbType exactly when the fixed-length and unicode facets can be read; fixed-length facet gives a fixed-length type, unicode gives String or StringFixedLength, and the result is one of the four string types |
| ProviderServices.GetSqlDbType | src/System.Data.WMI.EF6/WMIProviderServices.cs:157-218 | a non-primitive type is NotSupported; only string and binary types carry a size; strings take GetStringDbType and GetParameterSize, binaries Binary and GetParameterSize |
| ProviderServices.SqlDbTypeAgreesWithGetDbType | src/System.Data.WMI.EF6/WMIProviderServices.cs:157-218 | for the non-string kinds the parameter DbType is the one the metadata table gives; Time and DateTimeOffset, which that table refuses, still get a specific type |
| ProviderServices.ParameterType | src/System.Data.WMI.EF6/WMIProviderServices.cs:121-124 | a Guid is sent as a non-unicode fixed-length string; other primitive types as they are; a non-primitive type fails |
| ProviderServices.GuidParameterIsAnsiFixedLength | src/System.Data.WMI.EF6/WMIProviderServices.cs:121-137 | a Guid parameter is an AnsiStringFixedLength, sized Int32.MaxValue only when it is an output |
| ProviderServices.StringDbTypeDefaults | src/System.Data.WMI.EF6/WMIProviderServices.cs:236-253 | a string without fixed-length or unicode facets is a DbType.String |
| ProviderServices.CreateSqlParameter | src/System.Data.WMI.EF6/WMIProviderServices.cs:119-151 | only input parameters are created, an output one being NotSupported by the parameter's direction setter; a created parameter is new, named and valued as given, with the DbType, size and nullability of its type |
| ProviderServices.FunctionParameterNamed | src/System.Data.WMI.EF6/WMIProviderServices.cs:54 | the function parameter with exactly the given name, or none when no parameter has it |
| ProviderServices.ParameterSource | src/System.Data.WMI.EF6/WMIProviderServices.cs:52-57 | a tree parameter takes its type and mode from the function parameter of the same name when the tree is a function tree that has one; otherwise it is an input of its own type |
| ProviderServices.GeneratedParameters | src/System.Data.WMI.EF6/WMIProviderServices.cs:62-72 | parameters produced by SQL generation are refused with InvalidOperation "SqlGenParametersNotPermitted" exactly when there are some and the tree is not an INSERT, UPDATE or DELETE; otherwise they are kept as they are |
| ProviderServices.CreateCommand | src/System.Data.WMI.EF6/WMIProviderServices.cs:27-81 | a null manifest or tree is ArgumentNull; an unsupported tree fails; a created command has one DBNull parameter per tree parameter, named after it and an input, then the SQL generator's parameters, which only a modification has; a modification's text is its DML, a function tree's the function call |
| Parameter.WmiParameter.constructor | src/System.Data.WMI/WMIParameter.cs:161-169 | name, type, size, source column and version as given; nullable; no value; no null mapping |
| Parameter.WmiParameter.Named | src/System.Data.WMI/WMIParameter.cs:40-43 | the name as given, no DbType assigned, size 0, version Current, nullable and no value |
| Parameter.WmiParameter.GetDbType | src/System.Data.WMI/WMIParameter.cs:259-273 | the assigned DbType; otherwise the type the value's runtime type maps to, String when there is no value; only an unmapped runtime type fails |
| Parameter.WmiParameter.SetDbType | src/System.Data.WMI/WMIParameter.cs:259-273 | the DbType is assigned and read back; nothing else changes |
| Parameter.WmiParameter.SetValue | src/System.Data.WMI/WMIParameter.cs:322-333 | the value is stored; an unassigned DbType is taken from a non-null value's runtime type; afterwards the DbType can be read; nothing else changes |
| Parameter.WmiParameter.ResetDbType | src/System.Data.WMI/WMIParameter.cs:343-346 | the DbType is unassigned again, so it is read from the value; nothing else changes |
| Parameter.WmiParameter.SetDirection | src/System.Data.WMI/WMIParameter.cs:280-288 | only Input is accepted; any other direction is NotSupported |
| Parameter.WmiParameter.SetSize | src/System.Data.WMI/WMIParameter.cs:299 | the size is set; nothing else changes |
| Parameter.WmiParameter.SetIsNullable | src/System.Data.WMI/WMIParameter.cs:252 | nullability is set; nothing else changes |
| Parameter.NewWithValue | src/System.Data.WMI/WMIParameter.cs:50-54 | a new parameter with the name and value, size 0, nullable, the DbType of the value's runtime type when it maps to one; an unmapped runtime type fails with KeyNotFound |
| CommandGeneration.Modification | src/System.Data.WMI.EF6/Gen/SqlGenerator.cs:314-323 | a modification hands on the DML generator's text and parameters, or its error, with no columns and a text command type |
| CommandGeneration.GenerateSql | src/System.Data.WMI.EF6/Gen/SqlGenerator.cs:285-327 | an unrecognised tree is NotSupported "Unrecognized command tree type"; a query yields columns and no parameters; a function tree the function call text and command type; a modification its DML and parameters and no columns |

## Left out

- `SqlBuilder` and `SqlSelectStatement` are modelled as immutable values (datatypes `SqlFragments.SqlBuilder` and `SqlFragments.SqlSelectStatement`), not as objects. `SqlGenerator` in the source appends in place to the statement on top of its stack and to builders that other fragments may share. The model rebuilds the value and replaces the top of the stack. Aliasing between builders, and updates seen through a second reference, are not captured. The order of appends is kept.
- DML member values and the key comparer `KeyEquals` identify an EDM member by its name (`DmlGeneration.Register`), not by object reference as `Dictionary<EdmMember, DbParameter>` does. `KeyEquals` also compares a variable reference by its name, where the source compares the shared node by reference. `SqlRules.KeyEquals` compares the result types of two casts by value, where the source compares the two `TypeUsage` objects by reference; so two casts whose equal types are distinct objects fall under one key in the model, and can join an `IN` list the source would leave as `OR`.
- Ignore-case name comparison uses an ASCII-only upper-case fold (`Text.Fold`). It stands in for `StringComparer.OrdinalIgnoreCase` (the name registries, `JoinSymbol.NameToExtent`, `SymbolTable`, facet lookup) and for the culture-sensitive comparer of `Symbol.Columns`. Non-ASCII case folding and culture rules are not modelled.
- Dafny's `char` is a Unicode scalar value, not a UTF-16 code unit, so surrogate pairs and ordinal comparison of code units are not modelled. `StringUtil.OrdinalLe` compares scalar values.
- DateTime, Decimal, Double and Single literals are opaque strings (`FormattedValue`). Their text comes from `ManagementDateTimeConverter` and invariant-culture number formatting, which are foreign code. The decimal precision computed and never used in `Visit(DbConstantExpression)` is not modelled.
- DML `NOT`: `ExpressionTranslator.Visit(DbNotExpression)` accepts the same expression again and recurses without end. The model cuts this short as a `StackOverflow` error instead of diverging. The generic traversal overloads, which append no text, are modelled as appending nothing.
- Integer counters (`_parameterNameCount`, the registry suffixes, TOP/SKIP counts) are unbounded integers. Int32 overflow is not modelled.
- SqlWriting.FragmentWritten: for a symbol reference it says only that one string is written at the current indent. It does not say which string, because the renamed name depends on the heap. `SqlWriting.WriteFragment` and `Symbols.Symbol.WriteSql` state that the string is the symbol's name after renaming.
- SqlGeneration.SqlGenerator.AddExtentColumns: states that the column state only grows and that the registry gains only appended names at suffix 0. It does not state which columns it appends (each extent's columns, in order), because the nested per-extent calls would need the heap-dependent contract of `AddColumns` restated over a sequence of extents. `SqlGeneration.SqlGenerator.AddPropertyColumns` states the exact list for a single extent.
- SqlGeneration.SqlGenerator.AddColumns: for a join that is not nested, it states only that the column list and SELECT text grow and that the registry gains names at suffix 0. It does not state which columns are appended, for the reason given for `AddExtentColumns`. The extent and nested-join cases are stated exactly.
- SqlGeneration.SqlGenerator.EnsureSqlStatement: when it gives a statement its default columns, it does not state which columns they are. `SqlGeneration.SqlGenerator.VisitQuantifier` likewise does not state the default columns of the statement it wraps in EXISTS. `SqlGeneration.SqlGenerator.AddDefaultColumns` states them, and so do `SqlGeneration.SqlGenerator.CreateNewSelectStatement`, `SqlGeneration.SqlGenerator.CompleteJoinInput` and `SqlGeneration.SqlGenerator.JoinInputItem`.
- SqlGeneration.SqlGenerator.AddDefaultColumns: for a FROM extent that is a join but not a nested join, the part it appends is not stated, for the reason given for `AddExtentColumns`. The parts of entity extents and of nested joins are stated exactly.
- SqlGeneration.SqlGenerator.VisitAll: states one text per expression and that the stacks are restored. It does not tie the i-th text to the i-th expression: a visit is a state-changing method, and the model has no function that gives the text of an expression. The visitors of each node kind state their text in terms of their operands' texts.
- `KeyToListMap.ToCompactString` (a debugging dump) is not part of this model.
- WMI I/O is left out: executing queries through System.Management, `WMICommandBuilder.GetSchemaTable` (it runs a reader; only its row-rewriting helpers are modelled), and the loading of the manifest's embedded XML resources (`GetDbInformation` returns a tag naming the resource).
- `CreateCommand` takes the manifest as a flag (`hasManifest`), since the manifest is only null-checked and passed on. The command's `Dispose` on failure is not modelled, because a disposed command is never returned. Parameters produced by DML generation are values (`DmlGeneration.DmlParameter`), not `WMIParameter` objects.
- `ProviderServices.GeneratedParameters` models the check that refuses SQL-generation parameters for non-modification trees. The query and function branches of `GenerateSql` never produce parameters, so the refusal cannot happen in the composed `CreateCommand`.
- The connection, data adapter, factories, connection-string builder and data reader are WMI plumbing and are not part of this model.
