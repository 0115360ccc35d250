// WMICommandBuilder: identifier quoting with configurable delimiters, the
// names of generated parameters, the dispose guard, and the post-processing
// of the key information in a schema table.
module CommandBuilder {
  import opened Errors
  import opened Text

  /** System.Data.Common.CatalogLocation. */
  datatype CatalogLocation = Start | End

  /** `id` between the delimiters, each suffix inside it doubled; an empty
      delimiter or identifier leaves it as it is. */
  function QuotedIdentifier(prefix: string, suffix: string, id: string): (r: string)
    ensures prefix == "" || suffix == "" || id == "" ==> r == id
    ensures prefix != "" && suffix != "" && id != "" ==>
              |r| >= |prefix| + |suffix| && r[..|prefix|] == prefix && r[|r| - |suffix|..] == suffix
  {
    if prefix == "" || suffix == "" || id == "" then id
    else prefix + Replace(id, suffix, suffix + suffix) + suffix
  }

  /** Strips the delimiters (compared ignoring case) and un-doubles the
      suffix; text that is not wrapped in them comes back unchanged, and a
      text shorter than both delimiters together cannot be cut. */
  function UnquotedIdentifier(prefix: string, suffix: string, quoted: string): (r: Result<string>)
    ensures prefix == "" || suffix == "" || quoted == "" ==> r == Ok(quoted)
    ensures !StartsWithIgnoreCase(quoted, prefix) || !EndsWithIgnoreCase(quoted, suffix) ==> r == Ok(quoted)
    ensures r.Fail? ==> r.error == ArgumentOutOfRange && |quoted| < |prefix| + |suffix|
  {
    if prefix == "" || suffix == "" || quoted == "" then Ok(quoted)
    else if !StartsWithIgnoreCase(quoted, prefix) || !EndsWithIgnoreCase(quoted, suffix) then Ok(quoted)
    else if |quoted| < |prefix| + |suffix| then Fail(ArgumentOutOfRange)
    else Ok(Replace(quoted[|prefix|..|quoted| - |suffix|], suffix + suffix, suffix))
  }

  /** With a one-character suffix, unquoting a quoted identifier gives the
      identifier back, whatever the prefix. */
  lemma QuoteRoundTrip(prefix: string, c: char, id: string)
    ensures UnquotedIdentifier(prefix, [c], QuotedIdentifier(prefix, [c], id)) == Ok(id)
  {
    if prefix != "" && id != "" {
      assert [c] + [c] == [c, c];
      var body := Replace(id, [c], [c, c]);
      var q := prefix + body + [c];
      assert QuotedIdentifier(prefix, [c], id) == q;
      assert q[..|prefix|] == prefix;
      assert q[|q| - 1..] == [c];
      assert q[|prefix|..|q| - 1] == body;
      ReplaceDoubleUndouble(id, c);
    }
  }

  /** With distinct one-character delimiters, unquoting never fails. */
  lemma UnquoteTotal(p: char, s: char, quoted: string)
    requires Fold([p]) != Fold([s])
    ensures UnquotedIdentifier([p], [s], quoted).Ok?
  {
  }

  /** GetParameterName(string): the name behind an "@". */
  function ParameterName(parameterName: string): (r: string)
    ensures |r| == |parameterName| + 1 && r[0] == '@' && r[1..] == parameterName
  {
    "@" + parameterName
  }

  /** GetParameterName(int): "@param" and the ordinal. */
  function OrdinalParameterName(parameterOrdinal: int): (r: string)
    ensures |r| > 6 && r[..6] == "@param" && r[6..] == IntToString(parameterOrdinal)
  {
    "@param" + IntToString(parameterOrdinal)
  }

  /** Distinct ordinals give distinct parameter names. */
  lemma OrdinalParameterNamesDistinct(a: int, b: int)
    requires a != b
    ensures OrdinalParameterName(a) != OrdinalParameterName(b)
  {
    if OrdinalParameterName(a) == OrdinalParameterName(b) {
      assert OrdinalParameterName(a)[6..] == OrdinalParameterName(b)[6..];
      IntToStringInjective(a, b);
    }
  }

  /** GetParameterPlaceholder is the ordinal parameter name. */
  function ParameterPlaceholder(parameterOrdinal: int): (r: string)
    ensures r == OrdinalParameterName(parameterOrdinal)
  {
    OrdinalParameterName(parameterOrdinal)
  }

  class WmiCommandBuilder {
    var disposed: bool
    var quotePrefix: string
    var quoteSuffix: string
    var catalogLocation: CatalogLocation
    var catalogSeparator: string
    var schemaSeparator: string

    /** A new builder quotes with square brackets. */
    constructor ()
      ensures !disposed && quotePrefix == "[" && quoteSuffix == "]"
      ensures catalogLocation == Start && catalogSeparator == "." && schemaSeparator == "."
    {
      disposed := false;
      quotePrefix := "[";
      quoteSuffix := "]";
      catalogLocation := Start;
      catalogSeparator := ".";
      schemaSeparator := ".";
    }

    /** CheckDisposed: ObjectDisposedException once disposed. */
    function CheckDisposed(): (o: Outcome)
      reads this
      ensures o.Throw? <==> disposed
      ensures o.Throw? ==> o.error == ObjectDisposed
    {
      if disposed then Throw(ObjectDisposed) else Done
    }

    /** Disposing (again) leaves the builder disposed; nothing else changes. */
    method Dispose()
      modifies this
      ensures disposed
      ensures quotePrefix == old(quotePrefix) && quoteSuffix == old(quoteSuffix)
      ensures catalogLocation == old(catalogLocation) && catalogSeparator == old(catalogSeparator)
      ensures schemaSeparator == old(schemaSeparator)
    {
      disposed := true;
    }

    function QuotePrefix(): (r: Result<string>)
      reads this
      ensures r.Fail? <==> disposed
      ensures r.Ok? ==> r.value == quotePrefix
    {
      if disposed then Fail(ObjectDisposed) else Ok(quotePrefix)
    }

    function QuoteSuffix(): (r: Result<string>)
      reads this
      ensures r.Fail? <==> disposed
      ensures r.Ok? ==> r.value == quoteSuffix
    {
      if disposed then Fail(ObjectDisposed) else Ok(quoteSuffix)
    }

    function GetCatalogLocation(): (r: Result<CatalogLocation>)
      reads this
      ensures r.Fail? <==> disposed
      ensures r.Ok? ==> r.value == catalogLocation
    {
      if disposed then Fail(ObjectDisposed) else Ok(catalogLocation)
    }

    function CatalogSeparator(): (r: Result<string>)
      reads this
      ensures r.Fail? <==> disposed
      ensures r.Ok? ==> r.value == catalogSeparator
    {
      if disposed then Fail(ObjectDisposed) else Ok(catalogSeparator)
    }

    function SchemaSeparator(): (r: Result<string>)
      reads this
      ensures r.Fail? <==> disposed
      ensures r.Ok? ==> r.value == schemaSeparator
    {
      if disposed then Fail(ObjectDisposed) else Ok(schemaSeparator)
    }

    /** The QuotePrefix setter: refused once disposed. */
    method SetQuotePrefix(value: string) returns (o: Outcome)
      modifies this
      ensures o == CheckDisposed() && disposed == old(disposed)
      ensures quotePrefix == if o.Done? then value else old(quotePrefix)
      ensures quoteSuffix == old(quoteSuffix) && catalogLocation == old(catalogLocation)
      ensures catalogSeparator == old(catalogSeparator) && schemaSeparator == old(schemaSeparator)
    {
      o := CheckDisposed();
      if o.Done? {
        quotePrefix := value;
      }
    }

    /** The QuoteSuffix setter: refused once disposed. */
    method SetQuoteSuffix(value: string) returns (o: Outcome)
      modifies this
      ensures o == CheckDisposed() && disposed == old(disposed)
      ensures quoteSuffix == if o.Done? then value else old(quoteSuffix)
      ensures quotePrefix == old(quotePrefix) && catalogLocation == old(catalogLocation)
      ensures catalogSeparator == old(catalogSeparator) && schemaSeparator == old(schemaSeparator)
    {
      o := CheckDisposed();
      if o.Done? {
        quoteSuffix := value;
      }
    }

    /** The CatalogLocation setter: refused once disposed. */
    method SetCatalogLocation(value: CatalogLocation) returns (o: Outcome)
      modifies this
      ensures o == CheckDisposed() && disposed == old(disposed)
      ensures catalogLocation == if o.Done? then value else old(catalogLocation)
      ensures quotePrefix == old(quotePrefix) && quoteSuffix == old(quoteSuffix)
      ensures catalogSeparator == old(catalogSeparator) && schemaSeparator == old(schemaSeparator)
    {
      o := CheckDisposed();
      if o.Done? {
        catalogLocation := value;
      }
    }

    /** The CatalogSeparator setter: refused once disposed. */
    method SetCatalogSeparator(value: string) returns (o: Outcome)
      modifies this
      ensures o == CheckDisposed() && disposed == old(disposed)
      ensures catalogSeparator == if o.Done? then value else old(catalogSeparator)
      ensures quotePrefix == old(quotePrefix) && quoteSuffix == old(quoteSuffix)
      ensures catalogLocation == old(catalogLocation) && schemaSeparator == old(schemaSeparator)
    {
      o := CheckDisposed();
      if o.Done? {
        catalogSeparator := value;
      }
    }

    /** The SchemaSeparator setter: refused once disposed. */
    method SetSchemaSeparator(value: string) returns (o: Outcome)
      modifies this
      ensures o == CheckDisposed() && disposed == old(disposed)
      ensures schemaSeparator == if o.Done? then value else old(schemaSeparator)
      ensures quotePrefix == old(quotePrefix) && quoteSuffix == old(quoteSuffix)
      ensures catalogLocation == old(catalogLocation) && catalogSeparator == old(catalogSeparator)
    {
      o := CheckDisposed();
      if o.Done? {
        schemaSeparator := value;
      }
    }

    /** QuoteIdentifier with the builder's current delimiters. */
    function QuoteIdentifier(unquotedIdentifier: string): (r: Result<string>)
      reads this
      ensures disposed ==> r == Fail(ObjectDisposed)
      ensures !disposed ==> r == Ok(QuotedIdentifier(quotePrefix, quoteSuffix, unquotedIdentifier))
    {
      if disposed then Fail(ObjectDisposed)
      else Ok(QuotedIdentifier(quotePrefix, quoteSuffix, unquotedIdentifier))
    }

    /** UnquoteIdentifier with the builder's current delimiters. */
    function UnquoteIdentifier(quotedIdentifier: string): (r: Result<string>)
      reads this
      ensures disposed ==> r == Fail(ObjectDisposed)
      ensures !disposed ==> r == UnquotedIdentifier(quotePrefix, quoteSuffix, quotedIdentifier)
    {
      if disposed then Fail(ObjectDisposed)
      else UnquotedIdentifier(quotePrefix, quoteSuffix, quotedIdentifier)
    }
  }

  /** One row of a schema table: whether the column is (part of) the key and
      whether it is unique. */
  datatype SchemaRow = SchemaRow(columnName: string, isKey: bool, isUnique: bool)

  /** The rows with IsUnique cleared on every non-key row. */
  function NonKeysNotUnique(rows: seq<SchemaRow>): (r: seq<SchemaRow>)
    ensures |r| == |rows|
    ensures forall i :: 0 <= i < |rows| && rows[i].isKey ==> r[i] == rows[i]
    ensures forall i :: 0 <= i < |rows| && !rows[i].isKey ==> r[i] == rows[i].(isUnique := false)
  {
    if rows == [] then []
    else [if rows[0].isKey then rows[0] else rows[0].(isUnique := false)] + NonKeysNotUnique(rows[1..])
  }

  predicate HasKey(rows: seq<SchemaRow>) {
    exists i :: 0 <= i < |rows| && rows[i].isKey
  }

  /** HasSchemaPrimaryKey: some row is a key column. */
  method HasSchemaPrimaryKey(schema: array<SchemaRow>) returns (b: bool)
    ensures b <==> HasKey(schema[..])
  {
    var i := 0;
    while i < schema.Length
      invariant 0 <= i <= schema.Length
      invariant forall j :: 0 <= j < i ==> !schema[j].isKey
    {
      if schema[i].isKey {
        assert schema[..][i].isKey;
        return true;
      }
      i := i + 1;
    }
    return false;
  }

  /** ResetIsUniqueSchemaColumn: clears IsUnique on the non-key rows, in
      place. */
  method ResetIsUniqueSchemaColumn(schema: array<SchemaRow>)
    modifies schema
    ensures schema[..] == NonKeysNotUnique(old(schema[..]))
  {
    var i := 0;
    while i < schema.Length
      invariant 0 <= i <= schema.Length
      invariant forall j :: 0 <= j < i ==> schema[j] == NonKeysNotUnique(old(schema[..]))[j]
      invariant forall j :: i <= j < schema.Length ==> schema[j] == old(schema[j])
    {
      if !schema[i].isKey {
        schema[i] := schema[i].(isUnique := false);
      }
      i := i + 1;
    }
  }

  /** The rewriting GetSchemaTable applies to the schema it reads: if the
      table has a key, only key columns may stay unique. */
  method AdjustSchemaTable(schema: array<SchemaRow>)
    modifies schema
    ensures HasKey(old(schema[..])) ==> schema[..] == NonKeysNotUnique(old(schema[..]))
    ensures !HasKey(old(schema[..])) ==> schema[..] == old(schema[..])
  {
    var hasKey := HasSchemaPrimaryKey(schema);
    if hasKey {
      ResetIsUniqueSchemaColumn(schema);
    }
  }
}
