// The entry point of SQL generation: a command tree becomes its command
// text, the columns a query reads, the parameters a modification creates
// and the command type.
module CommandGeneration {
  import opened Errors
  import opened CommandTrees
  import SqlRules
  import SqlGeneration
  import DmlGeneration
  import Symbols

  /** The outputs of GenerateSql: the text, `columns` (null unless a query
      or function tree), `parameters` (null unless a modification tree)
      and `commandType`. */
  datatype GeneratedCommand = GeneratedCommand(
    text: string,
    columns: Option<seq<string>>,
    parameters: Option<seq<DmlGeneration.DmlParameter>>,
    commandType: SqlRules.CommandType)

  /** A modification's text and parameters as GenerateSql hands them on. */
  function Modification(r: Result<(string, seq<DmlGeneration.DmlParameter>)>): (g: Result<GeneratedCommand>)
    ensures r.Fail? <==> g.Fail?
    ensures g.Fail? ==> g.error == r.error
    ensures g.Ok? ==> g.value.text == r.value.0 && g.value.parameters == Some(r.value.1) &&
                      g.value.columns.None? && g.value.commandType == SqlRules.TextCommand
  {
    if r.Fail? then Fail(r.error)
    else Ok(GeneratedCommand(r.value.0, None, Some(r.value.1), SqlRules.TextCommand))
  }

  /** The text and parameters DmlSqlGenerator generates for a modification. */
  function ModificationSql(tree: TreeBody): Result<(string, seq<DmlGeneration.DmlParameter>)>
    requires IsModification(tree)
  {
    if tree.InsertTree? then DmlGeneration.Generated(DmlGeneration.InsertSql(tree.target, tree.setClauses, tree.returning))
    else if tree.UpdateTree? then DmlGeneration.Generated(DmlGeneration.UpdateSql(tree.target, tree.setClauses, tree.pred, tree.returning))
    else DmlGeneration.Generated(DmlGeneration.DeleteSql(tree.target, tree.pred))
  }

  /** SqlGenerator.GenerateSql(manifest, tree, out columns, out parameters,
      out commandType): a query is written by a new generator, a function
      call by GenerateFunctionSql, a modification by DmlSqlGenerator, and
      any other tree is a NotSupportedException. */
  method GenerateSql(tree: TreeBody) returns (r: Result<GeneratedCommand>)
    modifies (iset s: Symbols.Symbol {:trigger s.name} | true)`needsRenaming,
             (iset s: Symbols.Symbol {:trigger s.name} | true)`columns,
             (iset s: Symbols.Symbol {:trigger s.name} | true)`newName
    ensures tree.OtherTree? ==> r == Fail(NotSupported("Unrecognized command tree type"))
    ensures r.Ok? ==> (r.value.parameters.Some? <==> IsModification(tree)) &&
                      (r.value.columns.Some? <==> !IsModification(tree))
    ensures tree.QueryTree? && r.Ok? ==>
              r.value.parameters.None? && r.value.columns.Some? && r.value.commandType == SqlRules.TextCommand
    ensures tree.FunctionTree? ==>
              var (text, commandType) := SqlRules.GenerateFunctionSql(tree.edmFunction);
              r == Ok(GeneratedCommand(text, Some([]), None, commandType))
    ensures IsModification(tree) ==> r == Modification(ModificationSql(tree))
  {
    if tree.QueryTree? {
      var sqlGen := new SqlGeneration.SqlGenerator();
      var sql, result, events := sqlGen.GenerateQuerySql(tree.query);
      if sql.Fail? {
        return Fail(sql.error);
      }
      r := Ok(GeneratedCommand(sql.value, Some(sqlGen.columns), None, SqlRules.TextCommand));
    } else if tree.FunctionTree? {
      var sqlGen := new SqlGeneration.SqlGenerator();
      var (sql, commandType) := SqlRules.GenerateFunctionSql(tree.edmFunction);
      r := Ok(GeneratedCommand(sql, Some(sqlGen.columns), None, commandType));
    } else if tree.InsertTree? {
      var dml := DmlGeneration.GenerateInsertSql(tree.target, tree.setClauses, tree.returning);
      r := Modification(dml);
    } else if tree.DeleteTree? {
      var dml := DmlGeneration.GenerateDeleteSql(tree.target, tree.pred);
      r := Modification(dml);
    } else if tree.UpdateTree? {
      var dml := DmlGeneration.GenerateUpdateSql(tree.target, tree.setClauses, tree.pred, tree.returning);
      r := Modification(dml);
    } else {
      r := Fail(NotSupported("Unrecognized command tree type"));
    }
  }
}
