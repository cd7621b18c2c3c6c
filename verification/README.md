# Power BI chat bot: verified model of its data logic

The chat bot is a Streamlit page. It loads three datasets at start-up:
- a pipeline-deals table from the warehouse;
- the measures and columns of a Power BI data model, flattened from its JSON schema;
- a spreadsheet data dictionary.

Each table is bound to a question-answering agent. The user picks a topic and chats. Every question resends the whole transcript to that topic's agent. This project models the parts of that page that are logic rather than I/O, and proves what they promise.

- `StageMapping` (`stage_mapping.dfy`) models the `CASE` in the warehouse query. It turns the stage codes `STAGE 0` … `STAGE 6` into the "Stage type" labels `0-NEW` … `6-Contracted`. Any other value passes through the `ELSE` branch unchanged. A NULL stage stays NULL.
- `SchemaFlattener` (`schema_flatten.dfy`) models the two loops over the schema's tables.
  - The first loop accumulates every table's `measures` list. It then selects `name`/`expression` and renames them to "Dax Name"/"DAX".
  - The second, nested loop appends one ("Table Name", "Column Name", "Data Type") row per column.
  - Both loops are `method`s with loop invariants. Each is proved equal to a specification function built on an order-preserving block concatenation, `Concat`. Lemmas about those functions give the row counts, the exact position and contents of every row, where every row comes from, and ordering across tables.
- `ChatSession` (`chat_session.dfy`) models the transcript kept in the session state.
  - The transcript is a class `ChatState` with a `seq<Message>` field.
  - The chat-input handler appends the question. It joins every content with `"\n"` into the prompt and looks up and invokes the topic's agent inside the `try`. It normalises the result and appends exactly one assistant turn.
  - "Clear Chat" empties the transcript.
  - The agents are opaque functions from prompt to `AgentOutcome`: `Structured(output)` for a dictionary, `Raw(text)` for any other value's string form, `Failure(msg)` for an exception derived from `Exception`, the only kind the handler catches.
- `Common` (`common.dfy`) holds `Option` and `Result`.

Three behaviours of the code are easy to misread:
- An unknown topic is not a separate error. The lookup `agents[selected_df]` sits inside the `try`, so its key error becomes an `Error occurred: '<topic>'` assistant turn.
- The prompt is the contents joined with newlines, not plain concatenation.
- Missing `measures` keys are harmless only while at least one measure exists somewhere. If no table contributes a measure, the frame has no columns and the selection of `name`/`expression` raises. `MeasureTable` returns `Err(MissingColumns(...))` in that case.

## Model

| member | source | states |
|---|---|---|
| StageMapping.StageLabel | Chat_with_your_data.py:42-51 | `STAGE k` for k in 0..6 yields `Labels[k]` (`0-NEW` … `6-Contracted`); every value that is not one of the seven codes comes back unchanged |
| StageMapping.StageColumn | Chat_with_your_data.py:42-51 | a stage equal to `Codes[k]` yields `Labels[k]`; any other value, NULL included, is returned by `ELSE` as it is |
| StageMapping.LabelsAreNotCodes | Chat_with_your_data.py:43-49 | none of the seven labels is itself a stage code |
| StageMapping.StageLabelFixedPoints | Chat_with_your_data.py:42-51 | the mapping leaves a value unchanged if and only if it is not a stage code |
| StageMapping.StageLabelIdempotent | Chat_with_your_data.py:42-51 | mapping twice equals mapping once |
| StageMapping.StageLabelInjectiveOnCodes | Chat_with_your_data.py:43-49 | two different codes get two different labels |
| SchemaFlattener.FlattenMeasures | Chat_with_your_data.py:101-110 | the accumulate-then-select loop returns exactly `MeasureTable(tables)`: every table's measures in order, relabelled, or the key error when the frame is empty |
| SchemaFlattener.MeasuresStep | Chat_with_your_data.py:105-108 | one more loop iteration appends exactly that table's measures, or nothing when it has no `measures` key |
| SchemaFlattener.MeasureTableCount | Chat_with_your_data.py:104-109 | the measure table exists if and only if the tables hold at least one measure, and then it has one row per measure (tables without the key count zero) |
| SchemaFlattener.MeasureTableFailsWithoutMeasures | Chat_with_your_data.py:101-109 | when no table contributes a measure, the projection fails with the missing `name`/`expression` columns |
| SchemaFlattener.MeasureRowAt | Chat_with_your_data.py:105-110 | measure k of table j is the row at position (measures of tables before j) + k, with its name as "Dax Name" and its expression as "DAX", unchanged |
| SchemaFlattener.MeasureRowOrigin | Chat_with_your_data.py:105-110 | every measure row is some table's measure at exactly that position, relabelled: the pivot invents no rows |
| SchemaFlattener.RawMeasuresAppend | Chat_with_your_data.py:105-108 | the measures of earlier tables all precede those of later tables |
| SchemaFlattener.MeasurelessTableIgnored | Chat_with_your_data.py:107-108 | inserting a table without measures anywhere leaves the measure table unchanged |
| SchemaFlattener.FlattenColumns | Chat_with_your_data.py:112-117 | the nested loop returns exactly `ColumnTable(tables)`; the header is ("Table Name", "Column Name") until a row is appended and gains "Data Type" after |
| SchemaFlattener.ColumnsStep | Chat_with_your_data.py:114-117 | one more outer iteration appends exactly that table's column rows |
| SchemaFlattener.ColumnTableCount | Chat_with_your_data.py:113-117 | one column row per column of every table that has the `columns` key |
| SchemaFlattener.ColumnRowAt | Chat_with_your_data.py:114-117 | column k of table j is the row at position (columns of tables before j) + k and carries the table's name, the column's name and its data type |
| SchemaFlattener.ColumnRowOrigin | Chat_with_your_data.py:114-117 | every column row is some table's column at exactly that position, with that table's name |
| SchemaFlattener.ColumnTableAppend | Chat_with_your_data.py:114-117 | the columns of earlier tables all precede those of later tables |
| SchemaFlattener.ProjectMeasures | Chat_with_your_data.py:109-110 | no contract of its own: the selection of `name`/`expression` and the rename, with the key error on an empty frame; pinned down by `MeasureTableCount`, `MeasureTableFailsWithoutMeasures`, `MeasureRowAt` and `MeasureRowOrigin` |
| SchemaFlattener.MeasureTable | Chat_with_your_data.py:104-110 | no contract of its own: the measure table of a schema, the reference that `FlattenMeasures` is proved equal to; pinned down by `MeasureTableCount`, `MeasureRowAt`, `MeasureRowOrigin`, `RawMeasuresAppend` and `MeasurelessTableIgnored` |
| SchemaFlattener.ColumnTable | Chat_with_your_data.py:112-117 | no contract of its own: the column table of a schema, the reference that `FlattenColumns` is proved equal to; pinned down by `ColumnTableCount`, `ColumnRowAt`, `ColumnRowOrigin` and `ColumnTableAppend` |
| SchemaFlattener.ColumnCountBlocks | Chat_with_your_data.py:114-117 | the column rows of all tables are as many as the columns of the tables that have the `columns` key |
| SchemaFlattener.ConcatAt | Chat_with_your_data.py:108 | repeated concatenation keeps block order and in-block order: element k of block j lands after all earlier blocks' elements |
| ChatSession.StripEmptyIffBlank | Chat_with_your_data.py:160 | `strip()` of a text is empty exactly when every character is Python whitespace |
| ChatSession.TrimStart | Chat_with_your_data.py:160 | the result is the suffix left after removing leading whitespace, and it does not start with whitespace |
| ChatSession.TrimEnd | Chat_with_your_data.py:160 | the result is the prefix left after removing trailing whitespace, and it does not end with whitespace |
| ChatSession.Strip | Chat_with_your_data.py:160 | no contract of its own: `str.strip()` as `TrimStart` then `TrimEnd`; pinned down by their contracts and by `StripEmptyIffBlank` |
| ChatSession.ResponseText | Chat_with_your_data.py:156-158 | no contract of its own: `output` of a dictionary (default "") or the string form of any other value; pinned down by `ReplyKeepsAnswer` and `ReplyReplacesBlank` |
| ChatSession.Join | Chat_with_your_data.py:149 | no contract of its own: `"\n".join`; pinned down by `JoinLength`, `JoinAt` and `JoinSnoc` |
| ChatSession.History | Chat_with_your_data.py:149 | no contract of its own: the contents of all messages joined, roles excluded; pinned down by `PromptExtendsHistory` and `SubmitReply` |
| ChatSession.KeyErrorText | Chat_with_your_data.py:163-164 | no contract of its own: `str` of the key error for an unknown topic, the topic in single quotes; pinned down by `SubmitUnknownTopic` |
| ChatSession.Invoke | Chat_with_your_data.py:151-153 | no contract of its own: the topic lookup and the agent call inside the `try`, an unknown topic giving the key error; pinned down by `SubmitReply` and `SubmitUnknownTopic` |
| ChatSession.Reply | Chat_with_your_data.py:156-164 | the assistant text is never blank; an exception derived from `Exception` gives `Error occurred: ` + its message; otherwise the agent's text or the placeholder |
| ChatSession.ReplyKeepsAnswer | Chat_with_your_data.py:156-161 | a non-blank `output` (or string form) reaches the transcript unchanged |
| ChatSession.ReplyReplacesBlank | Chat_with_your_data.py:157-161 | a blank answer, including a dictionary without `output`, becomes exactly `No valid response received.` |
| ChatSession.ReplyStable | Chat_with_your_data.py:156-161 | normalising an already normalised reply changes nothing |
| ChatSession.JoinLength | Chat_with_your_data.py:149 | the prompt is all contents plus one newline between each two |
| ChatSession.JoinAt | Chat_with_your_data.py:149 | each content appears whole at its offset, preceded by a newline when it is not the first |
| ChatSession.JoinSnoc | Chat_with_your_data.py:149 | joining one more content appends a newline and that content |
| ChatSession.PromptExtendsHistory | Chat_with_your_data.py:148-149 | the prompt sent is the previous history, a newline and the new question (only the question when the transcript was empty) |
| ChatSession.AfterSubmit | Chat_with_your_data.py:147-166 | a submit grows the transcript by exactly two: the old entries unchanged, then the user's question, then one non-blank assistant turn |
| ChatSession.SubmitReply | Chat_with_your_data.py:149-153 | for a registered topic, the assistant turn is the normalised answer of that topic's agent to the whole history |
| ChatSession.SubmitUnknownTopic | Chat_with_your_data.py:151-164 | for an unregistered topic, no agent is invoked and the turn is `Error occurred: '<topic>'` |
| ChatSession.AppendTurnKeepsWellFormed | Chat_with_your_data.py:148-166 | appending a question and a non-blank reply keeps the transcript alternating user/assistant |
| ChatSession.SubmitKeepsWellFormed | Chat_with_your_data.py:147-166 | a submit keeps the transcript alternating user/assistant and free of blank replies |
| ChatSession.ChatState.constructor | Chat_with_your_data.py:140-141 | a new session's transcript is empty |
| ChatSession.ChatState.OnChatInput | Chat_with_your_data.py:147-166 | no input or an empty input changes nothing; otherwise the transcript becomes `AfterSubmit` of the old one, and well-formedness is kept |
| ChatSession.ChatState.Clear | Chat_with_your_data.py:172-173 | "Clear Chat" leaves the transcript empty (and well formed) |

## Left out

- The warehouse connection, `pd.read_sql`, the snapshot filter `MAX(SNAPSHOT_DATETIME)`, the `EXTRACT` date parts and the column renames of the query (lines 19-24, 27-64) are executed by the warehouse. Only the `CASE` is modelled.
- Hard-coded credentials, the login gate `authenticate` and `st.stop` (lines 10-16, 69-86) are UI and secrets handling.
- Reading the schema file (UTF-16 JSON) and the spreadsheet (lines 97-100, 120) is library I/O. The model starts from already decoded `TableDef` values, and the dictionary table is not modelled.
- SchemaFlattener: measure and column entries are assumed to carry their `name`/`expression` and `name`/`dataType` keys. A measure missing `name` or `expression` gets NaN there while some other measure carries that key; when no measure in the schema carries it, the selection `df[["name", "expression"]]` raises a key error. A column missing `name` or `dataType` makes the column loop raise. None of these cases is modelled. Extra keys of a measure are dropped by the selection and are not represented at all.
- SchemaFlattener: a measure `expression` is kept as one string. The JSON's multi-line form (a list of strings) is not distinguished.
- API-key entry, `ChatOpenAI` and `create_pandas_dataframe_agent` (lines 122-137) are foreign calls. An agent is only a function from prompt text to `AgentOutcome`, and the four-topic registry is an arbitrary `map` from topic label to agent.
- ChatSession.Reply: a dictionary whose `output` is not a string is not modelled. In the source, `.strip()` on it raises and produces an error turn.
- ChatSession.KeyErrorText: Python's `repr` of the topic is modelled as the topic in single quotes. The escaping and quote choice for topics containing quotes or unprintable characters is not modelled.
- Rendering, containers, the topic select box and the report iframe (lines 67, 89-94, 143-146, 167-171, 175-181) are UI.
- ChatSession.ChatState.OnChatInput: the handler is modelled as always reaching its second append. In the source, line 163 catches only `Exception`. A `BaseException` that is not an `Exception` escapes after the question was appended at line 148, for example a `SystemExit` raised by code the agent runs under `allow_dangerous_code=True` (lines 133-136). The transcript in the session state then keeps a question without a reply, so the alternation that `SubmitKeepsWellFormed` proves does not hold in that case.
