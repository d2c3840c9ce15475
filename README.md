# gline-rs batch prompt encoder, modelled in Dafny

This project models `EncodedInput::from` and `PromptsToEncoded::apply` from
`src/model/input/encoded.rs` of gline-rs. This is the pre-processing stage
that turns a batch of assembled GLiNER prompts into the padded integer
matrices the ONNX model reads: `input_ids`, `attention_masks`, `word_masks`
and `text_lengths`.

A prompt is a sequence of units. Each label contributes an entity marker
`<<ENT>>` followed by the label, then comes the separator `<<SEP>>`, then the
words of the text. Every unit is encoded separately into sub-word ids by the
tokenizer. The encoder works in two passes.

- **Sizing pass.** It encodes every unit and stops at the first tokenizer
  error. For each prompt it computes `total_tokens` (2 plus all sub-words)
  and `text_offset` (the sub-words of the units at positions
  `<= entities_len()`). Over the batch it computes the width `max_tokens`.
- **Materialising pass.** It fills one zeroed row per prompt through a cursor
  `idx`, starting with the start id 1 and ending with the end id 2. A
  counter `word_id` is written into the word mask at every position
  `idx >= text_offset`. The counter advances after every unit whose end
  leaves `idx >= text_offset`.

Files:

- `encoded.dfy` (module `Encoded`) holds the data model and the encoder.
  - Specification functions describe each matrix cell by cell: `IdCell`,
    `AttnCell`, `MaskCell` and the row and matrix functions built on them,
    with `Encode` giving the whole result.
  - Imperative methods compute the result the way the source does:
    `SizePrompt`, `SizeBatch`, `WriteUnit`, `WriteUnits`, `Materialise`,
    `MaterialiseBatch`, `TextLengthRows` and `From`. Each is proved to
    compute its specification function. The rows are written in place into
    arrays.
- `encoded_props.dfy` (module `EncodedProps`) proves what the encoder
  promises about every batch. This covers the error behaviour, the width,
  the row layout, exact attention, the shape of the word mask and the word
  numbering.
- `encoded_scenarios.dfy` (module `EncodedScenarios`) states and proves what
  the model gives for the batches of the three unit tests: the outputs those
  tests expect.

**The word-mask rule.** `text_offset` does not count the start marker, but it
is compared with `idx`, which does. In the tests, `entities_len()` is the
position of the first word of the text. With that reading:

- When the first word encodes to exactly one sub-word, the words are
  numbered 1, 2, 3, … and every label, marker and separator token gets 0.
  This is what the tests expect (`WordNumberingSingleSubword`).
- When the first word encodes to two or more sub-words, the source as
  written gives that first word 0. All later words are then numbered one
  lower (`WordNumbering` states the general rule). None of the tests
  exercises this case.
- When there is no word of text (`entitiesLen` equals the number of units),
  every unit counts towards `text_offset`. The counter then reaches 1 just
  before the separator, so the separator's cell gets 1: for an entity
  marker, one label and the separator, each one sub-word, the word-mask row
  of width 5 is `[0, 0, 0, 1, 0]` (`NoTextWordMask`).

The model follows the code literally here.

## Model

| member | source | states |
|---|---|---|
| Encoded.TextOffset | src/model/input/encoded.rs:43-54 | `text_offset` counts the sub-words of the units at positions `<= entities_len()`, so it never exceeds the prompt's sub-words |
| Encoded.EncodePrompt | src/model/input/encoded.rs:40-58 | a prompt encodes exactly when all its units do; it then has one encoding per unit, each the tokenizer's, and a `text_offset` within its sub-words |
| Encoded.TotalTokens | src/model/input/encoded.rs:41-50 | `total_tokens` (2 plus all sub-words) is one more than the cursor after the last unit, so the end marker takes the last counted cell |
| Encoded.Cursor | src/model/input/encoded.rs:74-93 | the cursor `idx` after the start marker and the units given, which is at least 1 |
| Encoded.WordId | src/model/input/encoded.rs:75-98 | the counter `word_id` after the units given: at most one step per unit, 0 while the cursor is still short of `text_offset`, one per unit when `text_offset <= 1` |
| Encoded.UnitMask | src/model/input/encoded.rs:84-93 | the word-mask cells of one unit: all the counter when the unit starts at or past `text_offset`, all 0 when it ends before it |
| Encoded.MaskTokens | src/model/input/encoded.rs:83-98 | the word-mask cells of all sub-words, one per sub-word |
| Encoded.IdCell | src/model/input/encoded.rs:78-103 | an `input_ids` cell is a `u32` value; the end marker 2 sits at the cursor after the last unit and only zeros follow |
| Encoded.AttnCell | src/model/input/encoded.rs:79-103 | an `attention_masks` cell is 0 or 1, and 1 exactly on the two markers and the `n` sub-words between them |
| Encoded.MaskCell | src/model/input/encoded.rs:72-98 | a `word_masks` cell is 0 under the start marker, under the end marker and on the padding |
| Encoded.TextLengthMatrix | src/model/input/encoded.rs:111-115 | `text_lengths` has one single-cell row per entry, holding that entry |
| Encoded.Encode | src/model/input/encoded.rs:32-129 | `from` succeeds exactly when the sizing pass does; it then has one row per prompt in each matrix and passes `texts`, `tokens`, `entities` and `num_words` through |
| Encoded.EncodeUnits | src/model/input/encoded.rs:46-56 | on success, one encoding per unit, each the one the tokenizer gives that unit |
| Encoded.EncodePrompts | src/model/input/encoded.rs:38-60 | on success, one encoded prompt per prompt, in prompt order, each the encoding of that prompt |
| Encoded.Width | src/model/input/encoded.rs:36-59 | `max_tokens` bounds every prompt's `total_tokens`, is attained by one of them, and is 0 for an empty batch |
| Encoded.WidthSnoc | src/model/input/encoded.rs:59 | one more prompt makes the width the maximum of the old width and that prompt's `total_tokens` |
| Encoded.TextOffsetStep | src/model/input/encoded.rs:51-54 | `total_entity_tokens` grows by a unit's length exactly when the unit's position is `<= entities_len()` |
| Encoded.UnitsErrorPropagates | src/model/input/encoded.rs:48 | once a unit has failed to encode, the prompt's result is that failure |
| Encoded.PromptsErrorPropagates | src/model/input/encoded.rs:38-48 | once a prompt has failed, the batch's result is that failure |
| Encoded.MaskAt | src/model/input/encoded.rs:83-98 | the word-mask cell of each sub-word is the counter as it stood before the unit when the cell is at or past `text_offset`, else 0 |
| Encoded.WordIdStep | src/model/input/encoded.rs:95-98 | the counter rises by one after a unit exactly when the cursor is then at or past `text_offset` |
| Encoded.UnitCells | src/model/input/encoded.rs:83-94 | the cells a unit covers hold its sub-word ids, attention 1 and the counter value; the cursor advances by the unit's length |
| Encoded.WriteUnit | src/model/input/encoded.rs:84-94 | writes a unit's ids and attention 1 from the cursor on, the counter into the word mask only at or past `text_offset`, and leaves every other cell unchanged |
| Encoded.WriteUnits | src/model/input/encoded.rs:83-99 | after the unit loop, the cursor is 1 plus all sub-words, every cell before it holds the specified id, attention and mask, and every cell after it is still 0 |
| Encoded.Materialise | src/model/input/encoded.rs:69-103 | one prompt's three rows equal the specified `input_ids`, `attention_masks` and `word_masks` rows; every write is in bounds |
| Encoded.SizePrompt | src/model/input/encoded.rs:40-58 | the sizing loop of one prompt returns its encoding and `text_offset`, or the first tokenizer error, and `total_tokens` is 2 plus all sub-words |
| Encoded.SizeBatch | src/model/input/encoded.rs:34-60 | the sizing pass returns every prompt's encoding, or the first error, and `max_tokens` is the batch width |
| Encoded.MaterialiseBatch | src/model/input/encoded.rs:65-109 | one row per prompt in prompt order for each of the three matrices, each the specified row |
| Encoded.TextLengthRows | src/model/input/encoded.rs:111-115 | `text_lengths` has one single-cell row per entry, holding that entry |
| Encoded.From | src/model/input/encoded.rs:32-129 | `EncodedInput::from` returns exactly `Encode`: the first tokenizer error, or the matrices with the other fields passed through |
| Encoded.PromptsToEncoded.Apply | src/model/input/encoded.rs:146-149 | `apply` returns exactly what `from` returns for its tokenizer |
| EncodedProps.UnitsFailIff | src/model/input/encoded.rs:46-48 | a prompt fails to encode if and only if some unit fails |
| EncodedProps.UnitsFirstFailure | src/model/input/encoded.rs:46-48 | a prompt's error is that of its first failing unit |
| EncodedProps.UnitsEncodeToTheirIds | src/model/input/encoded.rs:46-56 | when every unit encodes, the prompt's encoding is exactly those encodings |
| EncodedProps.PromptsFailIff | src/model/input/encoded.rs:38-48 | a batch fails if and only if some prompt fails |
| EncodedProps.PromptsFirstFailure | src/model/input/encoded.rs:38-48 | a batch's error is that of its first failing prompt, and every earlier prompt encodes |
| EncodedProps.PromptsEncodeToTheirEncodings | src/model/input/encoded.rs:38-58 | when every prompt encodes, the batch's encodings are exactly those |
| EncodedProps.FailsIffSomeUnitFails | src/model/input/encoded.rs:48 | `from` fails if and only if some unit of some prompt fails to encode |
| EncodedProps.ErrorIsFirstFailure | src/model/input/encoded.rs:38-48 | the error returned is that of the first failing unit, in prompt order and then unit order |
| EncodedProps.PromptEncoding | src/model/input/encoded.rs:40-58 | a prompt of a successful batch has one encoding per unit, each the tokenizer's, and its `text_offset` |
| EncodedProps.RowsOfPrompt | src/model/input/encoded.rs:68-108 | each prompt's `total_tokens` fits the width, and its three rows are the specified rows |
| EncodedProps.WidthIsMaximum | src/model/input/encoded.rs:36-59 | `num_tokens` bounds every prompt's `2 + Σ` sub-words and equals one of them; for an empty batch it is 0 and there are no rows |
| EncodedProps.RowsHaveWidth | src/model/input/encoded.rs:65-108 | one row per prompt in each matrix, and every row has exactly `num_tokens` cells |
| EncodedProps.Passthrough | src/model/input/encoded.rs:112-122 | `text_lengths` holds one single-cell row per input entry; `texts`, `tokens`, `entities` and `num_words` are unchanged |
| EncodedProps.IdRowCells | src/model/input/encoded.rs:70-103 | an `input_ids` row is 1, then all sub-word ids in unit order, then 2, then zeros |
| EncodedProps.IdRowUnit | src/model/input/encoded.rs:83-94 | each unit's ids sit in the row from the position where that unit starts |
| EncodedProps.IdRowLayout | src/model/input/encoded.rs:70-103 | in every output row: position 0 holds 1, positions 1..n the sub-word ids, n+1 holds 2, the rest 0, and each unit's ids sit at its own start |
| EncodedProps.CountPrefixOnes | src/model/input/encoded.rs:71-103 | a row that is 1 on its first m cells and 0 after holds m ones and the rest zeros |
| EncodedProps.AttentionIsExact | src/model/input/encoded.rs:71-103 | the attention row is 1 exactly on positions 0..n+1 and 0 after, so it has n+2 ones and `num_tokens - (n+2)` zeros |
| EncodedProps.MaskTokensShape | src/model/input/encoded.rs:75-98 | along the sub-words, the mask is 0 before `text_offset`, non-decreasing, and never above the counter, which never exceeds the number of units |
| EncodedProps.MaskRowShape | src/model/input/encoded.rs:72-103 | a word-mask row is 0 at position 0, before `text_offset`, and from the end marker on; it is non-decreasing up to the end marker and bounded by the number of units |
| EncodedProps.WordMaskShape | src/model/input/encoded.rs:72-103 | the same shape, for every row of the output |
| EncodedProps.CursorReachesOffset | src/model/input/encoded.rs:52-98 | with non-empty separator and first word, the cursor after `u >= 1` units is at or past `text_offset` exactly when the first word is among them, or is next and has one sub-word |
| EncodedProps.WordIdBeforeUnit | src/model/input/encoded.rs:46-98 | the counter before each unit: 0 up to the first text word, then one per earlier word, plus one when the first word has a single sub-word (the separator and the first word being non-empty) |
| EncodedProps.MaskRowNumbering | src/model/input/encoded.rs:46-98 | every cell of a unit carries the same mask value: 0 before the first text word, then the unit's rank among the words, counted from 1 when the first word has a single sub-word and from 0 otherwise |
| EncodedProps.WordNumbering | src/model/input/encoded.rs:46-98 | the same numbering for every row of the output |
| EncodedProps.UnitOfCell | src/model/input/encoded.rs:83-94 | every sub-word cell of a row lies within the span of some unit |
| EncodedProps.MaskRowMaximum | src/model/input/encoded.rs:89-98 | with a single-sub-word first word, no mask cell exceeds the number of words, and when the last word is non-empty its first cell holds exactly that number |
| EncodedProps.WordNumberingSingleSubword | src/model/input/encoded.rs:46-98 | when the first word has one sub-word (and the separator before it is non-empty), tokens before it get 0, the words get 1, 2, 3, … in order, no cell exceeds the number of words, and a non-empty last word reaches it |
| EncodedScenarios.JamesBondSizing | src/model/input/encoded.rs:199-224 | "My name is James Bond" with two labels sizes to 11 sub-words, with the text starting at cell 7 |
| EncodedScenarios.JamesBondIdRow | src/model/input/encoded.rs:221 | its `input_ids` row is the one the test expects |
| EncodedScenarios.JamesBondMaskRow | src/model/input/encoded.rs:223 | its `word_masks` row is the one the test expects |
| EncodedScenarios.AstonMartinSizing | src/model/input/encoded.rs:199-233 | "I like to drive my Aston Martin" sizes to 13 sub-words, with the text starting at cell 7 |
| EncodedScenarios.AstonMartinIdRow | src/model/input/encoded.rs:230 | its `input_ids` row is the one the test expects |
| EncodedScenarios.AstonMartinMaskRow | src/model/input/encoded.rs:232 | its `word_masks` row is the one the test expects |
| EncodedScenarios.SecondTestIdsMatrix | src/model/input/encoded.rs:221-230 | the second test's `input_ids` matrix |
| EncodedScenarios.SecondTestAttnMatrix | src/model/input/encoded.rs:222-231 | the second test's `attention_masks` matrix |
| EncodedScenarios.SecondTestMaskMatrix | src/model/input/encoded.rs:223-232 | the second test's `word_masks` matrix |
| EncodedScenarios.SecondTestBatch | src/model/input/encoded.rs:199-235 | the second test's whole output: width 15, and every row and text length that test expects |
| EncodedScenarios.ShortTextSizing | src/model/input/encoded.rs:159-196 | "Short text" with two labels sizes to 7 sub-words |
| EncodedScenarios.ShortTextIdRow | src/model/input/encoded.rs:183-185 | its `input_ids` row in a 22-cell batch |
| EncodedScenarios.LongerOneSizing | src/model/input/encoded.rs:159-196 | the long text sizes to 20 sub-words |
| EncodedScenarios.LongerOneIdRow | src/model/input/encoded.rs:186-188 | its `input_ids` row in a 22-cell batch |
| EncodedScenarios.FirstTestIdsMatrix | src/model/input/encoded.rs:181-188 | the first test's `input_ids` matrix |
| EncodedScenarios.FirstTestAttnMatrix | src/model/input/encoded.rs:192-193 | the first test's `attention_masks` matrix |
| EncodedScenarios.FirstTestBatch | src/model/input/encoded.rs:159-196 | the first test's batch is 22 cells wide, with those two rows in `input_ids` and in `attention_masks` |
| EncodedScenarios.MultiLabelSizing | src/model/input/encoded.rs:238-261 | "this is a test" with the label "multi label" sizes to 8 sub-words |
| EncodedScenarios.MultiLabelMaskRow | src/model/input/encoded.rs:258 | its `word_masks` row is the one the test expects |
| EncodedScenarios.ThirdTestMaskMatrix | src/model/input/encoded.rs:258 | the third test's `word_masks` matrix |
| EncodedScenarios.MultiwordLabelBatch | src/model/input/encoded.rs:238-261 | the third test's batch is 10 cells wide, and its word mask numbers the four words 1 to 4 |
| EncodedScenarios.NoTextWordMask | src/model/input/encoded.rs:52-98 | with no word of text, the separator's word-mask cell is 1 and every other cell 0 |

## Left out

- The tokenizer (`HFTokenizer`, its vocabulary and BPE) is a parameter: a deterministic function from a unit to sub-word ids or an error.
- Prompt assembly is not part of this model. This covers `PromptInput`, `prompt.rs` and the definition of `entities_len()`. A prompt is its units plus `entitiesLen`, the value `entities_len()` returns. Following the tests, that value is the position of the first word of the text.
- The splitter's `Token` record is a type parameter. It is only passed through.
- `src/model/inference/mod.rs` and `src/model/mod.rs` are left out. They hold the ONNX session set-up and run, plus facades that only forward to it: foreign calls with nothing to prove here.
- The `push_row` errors (source lines 106-108, 114) are not modelled. They cannot fire, because every row has the matrix's width.
- Integers are unbounded. The `usize` counters cannot overflow for any batch that fits in memory, and the `u32 as i64` cast is exact. Sub-word ids are kept in the `u32` range.
- The `ndarray` matrices are sequences of rows. Each row buffer is an array written in place by `Materialise`. Each finished row is then appended to the row sequence, where the source pushes it onto the matrix.
- The unit tests' ids: only the second test asserts concrete ids. For the other two, each unit's ids are stand-ins, with the number of sub-words that gives the totals those tests assert.
- EncodedScenarios.FirstTestBatch: states the two rows of `input_ids` and of `attention_masks` cell for cell, instead of counting zeros, entity markers, separators and attended cells as the test does. The `word_masks` rows are not stated, because that test does not check them. The test's counts (13, 2, 1; 0, 2, 1; 9 and 22) can be read off those rows.
- EncodedScenarios.MultiwordLabelBatch: states only the width and the word mask, which is all that test checks. The `input_ids` row depends on the stand-in ids.
