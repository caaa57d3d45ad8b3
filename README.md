# migration_agent in Dafny

This project models the deterministic core of `migration_agent`, a tool
that reconciles a source and a target database schema and then drives a
bounded-retry pipeline of language-model agents that write, validate and
explain a SQL migration script.

Three modules, one per core source file:

- `Models` (`models.dfy`) has the record types: `SchemaField`, `Schema`,
  `MultiTableSchema`, `FieldMapping`, `MigrationContext`, `ValidationReport`,
  and the two dictionary records the analyst produces (`MappingPair`,
  `TypeMismatch`). Defaults are constructor parameters with `:=`. Optional
  fields are `Option`.
- `SchemaAnalyst` (`schema_analyst.dfy`) is the schema analyst.
  - `GroupByTablePair` is the loop that fills the insertion-ordered
    dictionary `table_pairs`. It is modelled as a key order plus a map, and
    proved against the pure `PairOrder` and `Group`.
  - `Analyze` resolves each pair with `FindTable` (first table of that
    name) and skips the pair if either side is unknown.
  - `AnalyzeWithLlm` is the classification loop. It builds the name-to-column
    lookups with `FieldIndex` (last column of a name wins) and appends every
    mapping to one of `missingInTarget`, `datatypeMismatches` or
    `validatedMappings`. It is proved against the pure `Classify`.
  - The lemmas about `PairOrder`, `Group`, `Classify` and `Reconcile` state
    the ordering, partition, skip and classification rules.
- `Workflow` (`workflow.dfy`) is the orchestrator graph.
  - `State` is the graph state. `Step` is one node run plus its outgoing
    edge. `CheckValidation` is the Pass / Retry / Fail decision.
  - `RunWorkflow` is the compiled graph: a `while` loop over an explicit
    `Phase`. It is proved equal to the closed form `Expected`, which is built
    from `Script`, `Report` and `Attempts`.
  - The lemmas about `Expected` state the retry bound, request counts,
    termination and the Fail/Pass conditions.

The language-model calls are parameters. The analysis text of each table
pair comes from an `Analyst` function of the two schemas and the pair's
mappings. The four workflow agents (generate, regenerate, validate,
explain) form an `Agents` value of four functions, called with exactly the
arguments the nodes pass them.

Two behaviours of the code are worth stating outright:
- A mapping whose target column exists but whose source column does not
  goes to the validated list: the mismatch test needs both columns
  (src/migration_agent/agents/schema_analyst.py:105-119).
  `SchemaAnalyst.ReconcileExample` shows this on a Customers/Clients pair.
- With an empty context list, validating and explaining read the first
  context and raise an index error (src/migration_agent/main.py:37,
  src/migration_agent/main.py:45). Regenerating without a report fails
  when it reads the report's errors
  (src/migration_agent/agents/sql_generator.py:66). The model ends the run
  in a terminal `Crashed` phase in these cases.

## Model

| member | source | states |
|---|---|---|
| `Models.SchemaFieldDefaults` | src/migration_agent/models.py:4-8 | a column built without a primary-key flag has `primary_key` false |
| `Models.FieldMappingDefaults` | src/migration_agent/models.py:17-22 | a mapping built without table columns has both table names absent |
| `Models.MigrationContextDefaults` | src/migration_agent/models.py:24-31 | a fresh context has no analysis and empty validated, missing and mismatch lists |
| `Models.ValidationReportDefaults` | src/migration_agent/models.py:33-38 | a report needs only `has_errors`; warnings, errors and valid mappings start empty and details absent |
| `SchemaAnalyst.GroupByTablePair` | src/migration_agent/agents/schema_analyst.py:35-40 | the dictionary's keys are the distinct (source table, target table) pairs in first-seen order, each holding that pair's mappings in input order |
| `SchemaAnalyst.PairOrderFirstSeen` | src/migration_agent/agents/schema_analyst.py:35-40 | the key order holds exactly the pairs that occur, each once, ordered by the position of their first mapping |
| `SchemaAnalyst.GroupAppend` | src/migration_agent/agents/schema_analyst.py:36-40 | grouping keeps input order: the group of `a + b` is the group of `a` followed by the group of `b` |
| `SchemaAnalyst.GroupMembers` | src/migration_agent/agents/schema_analyst.py:36-40 | a group holds only input mappings whose key is the group's key |
| `SchemaAnalyst.GroupsPartition` | src/migration_agent/agents/schema_analyst.py:36-40 | the groups together hold, as a multiset, exactly the input mappings: none dropped, none deduplicated |
| `SchemaAnalyst.FindTable` | src/migration_agent/agents/schema_analyst.py:44-49 | a table is found exactly when the name is present and some table has it; the one found has that name and is one of the tables |
| `SchemaAnalyst.FindTableFirst` | src/migration_agent/agents/schema_analyst.py:44-49 | resolution returns the first table with the requested name |
| `SchemaAnalyst.FieldIndexKeys` | src/migration_agent/agents/schema_analyst.py:98-99 | the lookup knows exactly the column names of the table, and each name maps to a column of that name |
| `SchemaAnalyst.FieldIndexLastWins` | src/migration_agent/agents/schema_analyst.py:98-99 | of several columns with one name, the last one is found |
| `SchemaAnalyst.AnalyzeWithLlm` | src/migration_agent/agents/schema_analyst.py:91-121 | the context keeps the schemas, the mappings and the analysis text, its lists are the classification of the mappings, and the three list lengths add up to the number of mappings |
| `SchemaAnalyst.ClassifyCounts` | src/migration_agent/agents/schema_analyst.py:101-119 | every mapping lands in exactly one bucket: the bucket sizes sum to the number of mappings |
| `SchemaAnalyst.ClassifyAppend` | src/migration_agent/agents/schema_analyst.py:101-119 | classification is per mapping and in input order: the buckets of `a + b` are those of `a` followed by those of `b` |
| `SchemaAnalyst.ClassifyMissing` | src/migration_agent/agents/schema_analyst.py:103-106 | a name is reported missing exactly when some mapping targets it and the target has no such column, whatever the source holds |
| `SchemaAnalyst.ClassifyMismatches` | src/migration_agent/agents/schema_analyst.py:107-115 | a mismatch record appears exactly for a mapping whose two columns exist with different type strings, and carries both names and both types |
| `SchemaAnalyst.ClassifyValidated` | src/migration_agent/agents/schema_analyst.py:116-119 | a pair is validated exactly for a mapping whose target column exists and whose source column is absent or of the same type |
| `SchemaAnalyst.ClassifyExample` | src/migration_agent/agents/schema_analyst.py:101-119 | in the Customers/Clients example both mappings are validated, including the one whose source column is absent |
| `SchemaAnalyst.ContextsForLength` | src/migration_agent/agents/schema_analyst.py:42-57 | the loop yields at most one context per key |
| `SchemaAnalyst.ContextsForBuilt` | src/migration_agent/agents/schema_analyst.py:43-55 | every context comes from a key whose two tables resolve, with the first matching tables, the key's mappings and their classification |
| `SchemaAnalyst.ContextsForOrdered` | src/migration_agent/agents/schema_analyst.py:42-57 | for distinct keys, the contexts come in the order of their keys |
| `SchemaAnalyst.ContextsForComplete` | src/migration_agent/agents/schema_analyst.py:43-55 | every key whose two tables resolve yields a context |
| `SchemaAnalyst.ReconcileSpec` | src/migration_agent/agents/schema_analyst.py:35-57 | at most one context per distinct pair; a context exactly for each pair that resolves on both sides, built from its first matching tables and its mappings; and contexts in the order their pairs are first met |
| `SchemaAnalyst.ReconcileExample` | src/migration_agent/agents/schema_analyst.py:35-57 | the Customers/Clients example yields one context whose two mappings are both validated |
| `SchemaAnalyst.Analyze` | src/migration_agent/agents/schema_analyst.py:35-57 | the grouping and resolution loops return the reconciliation of the inputs, with at most one context per distinct pair |
| `Workflow.InitialState` | src/migration_agent/main.py:17-23 | the graph starts with the given contexts, an empty script, no report, an empty explanation and a retry count of 0 |
| `Workflow.CheckValidation` | src/migration_agent/main.py:57-60 | Pass exactly when the report has no errors, whatever the retry count; Retry exactly with errors and fewer than 3 retries; Fail exactly with errors and 3 or more |
| `Workflow.RegeneratorNode` | src/migration_agent/main.py:50-54 | regeneration replaces the script with one made from all contexts and the latest report, adds exactly 1 to the retry count and changes nothing else |
| `Workflow.Step` | src/migration_agent/main.py:26-54 | each node's successor and exact update: Start goes to generation; generation stores the script made from all contexts and goes to validation; validation stores the report on the first context and goes to explanation, regeneration or Failed as the decision says; regeneration stores the new script, adds 1 to the retry count and goes back to validation; explanation stores the explanation of the first context and ends Passed; each node issues exactly its one request, keeps every other field, and crashes, with the state unchanged, exactly where the first context or the report is missing |
| `Workflow.StopFrom` | src/migration_agent/main.py:57-60 | the run stops at the first validation without errors, or at the last one the budget of 3 retries allows |
| `Workflow.RunWorkflow` | src/migration_agent/main.py:75-93 | the graph loop always ends in a terminal phase, keeps the retry count at most 3, and ends exactly as the closed form of the run |
| `Workflow.RunBounds` | src/migration_agent/main.py:75-83 | a run ends, generates once, regenerates at most 3 times, validates at most 4 times (once more than it regenerates unless it crashed), and explains only when it passes |
| `Workflow.FailedIffEveryValidationErrs` | src/migration_agent/main.py:57-60 | with contexts, the run fails exactly when all 4 validations report errors and otherwise passes; it crashes exactly when there are no contexts |
| `Workflow.PassesAtFirstCleanValidation` | src/migration_agent/main.py:57-59 | the run passes at the first validation without errors, with that many retries, and explains that script against the first context |
| `Workflow.FailedKeepsLastAttempt` | src/migration_agent/main.py:80 | a failed run has 3 retries, an empty explanation and no explain request, and keeps the last script and its failing report |
| `Workflow.AlwaysFailingValidationExhaustsRetries` | src/migration_agent/main.py:50-83 | a validator that always reports errors drives the run to Failed after exactly 3 regenerations, with no explanation |

## Left out

- Reading the schema JSON and the mapping CSV (src/migration_agent/agents/schema_analyst.py:25-33) and writing the output files (src/migration_agent/main.py:95-119) are I/O. The model starts from parsed records and returns the final run.
- Prompt construction and the language-model calls (src/migration_agent/agents/schema_analyst.py:62-89 and the agent classes) are foreign, non-deterministic calls. They are caller-supplied functions, so two identical calls give the same answer.
- Exceptions raised by a language-model call (timeouts, malformed answers) are not modelled: the oracle functions are total. The source lets them abort the run.
- The crash on an empty context list is the terminal phase `Crashed`, with the state reached. In the source the exception propagates and no state is returned.
- Configuration loading with its global cache, logging, and the graph library's `StateGraph`/`compile` machinery are left out. The graph's edges are the explicit `Step` function.
- `MigrationContext` lists are appended in place inside `_analyze_with_llm` only. The model rebuilds the record with each append, which is the same value because no one else holds the record during the loop.
- `State.contexts` defaults to `None` in the source but the graph is always invoked with a list, so the model's `State` always holds a sequence.
- `CheckValidation` requires a report to be present. The source reads the report's `has_errors` unguarded, and in the graph the decision always follows a validation.
