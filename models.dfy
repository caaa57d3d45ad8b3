/** Record types of the migration agent: schemas read from the source and
    target dumps, the declared field mappings, the per-table-pair
    reconciliation context and the validation report returned by the
    validating agent. Constructor parameters with `:=` carry the defaults
    the records declare. */
module Models {

  datatype Option<+T> = None | Some(value: T)

  /** One column of a table. `primaryKey` is optional in the input and
      defaults to false. */
  datatype SchemaField = SchemaField(
    name: string,
    fieldType: string,
    nullable: bool,
    primaryKey: Option<bool> := Some(false))

  /** One table: its name and its columns in declaration order. */
  datatype Schema = Schema(tableName: string, fields: seq<SchemaField>)

  /** One side (source or target) of a migration: its tables in order. */
  datatype MultiTableSchema = MultiTableSchema(tables: seq<Schema>)

  /** One row of the mapping list. The table columns may be absent. */
  datatype FieldMapping = FieldMapping(
    sourceField: string,
    targetField: string,
    transformation: string,
    sourceTable: Option<string> := None,
    targetTable: Option<string> := None)

  /** The `{"source", "target"}` record of a validated mapping. */
  datatype MappingPair = MappingPair(source: string, target: string)

  /** The `{"source", "target", "source_type", "target_type"}` record of a
      mapping whose two columns have different declared types. */
  datatype TypeMismatch = TypeMismatch(
    source: string,
    target: string,
    sourceType: string,
    targetType: string)

  /** The reconciliation of one (source table, target table) pair. The
      analysis text and the three classification lists start out empty. */
  datatype MigrationContext = MigrationContext(
    sourceSchema: Schema,
    targetSchema: Schema,
    mappings: seq<FieldMapping>,
    analysis: Option<string> := None,
    validatedMappings: seq<MappingPair> := [],
    missingInTarget: seq<string> := [],
    datatypeMismatches: seq<TypeMismatch> := [])

  /** The structured answer of the validating agent. Only `hasErrors` is
      required. */
  datatype ValidationReport = ValidationReport(
    hasErrors: bool,
    warnings: seq<string> := [],
    errors: seq<string> := [],
    validMappings: seq<string> := [],
    validationDetails: Option<string> := None)

  /** A column built without a primary-key flag is not a primary key. */
  lemma SchemaFieldDefaults(name: string, fieldType: string, nullable: bool)
    ensures SchemaField(name, fieldType, nullable).primaryKey == Some(false)
  {
  }

  /** A mapping row without table columns names no table on either side. */
  lemma FieldMappingDefaults(sourceField: string, targetField: string, transformation: string)
    ensures FieldMapping(sourceField, targetField, transformation).sourceTable == None
    ensures FieldMapping(sourceField, targetField, transformation).targetTable == None
  {
  }

  /** A freshly built context has no analysis and empty classification lists. */
  lemma MigrationContextDefaults(source: Schema, target: Schema, mappings: seq<FieldMapping>)
    ensures var c := MigrationContext(source, target, mappings);
      c.analysis == None && c.validatedMappings == [] && c.missingInTarget == [] && c.datatypeMismatches == []
  {
  }

  /** A report built from `hasErrors` alone has no warnings, errors, valid
      mappings or details. */
  lemma ValidationReportDefaults(hasErrors: bool)
    ensures var r := ValidationReport(hasErrors);
      r.hasErrors == hasErrors && r.warnings == [] && r.errors == [] && r.validMappings == []
      && r.validationDetails == None
  {
  }
}
