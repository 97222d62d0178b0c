# MusicGenerator token pipeline in Dafny

This project models the symbolic core of `MusicGenerator`. That class turns
MIDI files into a stream of string tokens: one per note, and one per chord
written as its normal order joined with dots, such as `0.4.7`. It then
builds a vocabulary that maps each distinct token to its rank in sorted
order, and slides a window of `seq_length` one-hot rows over the encoded
stream to make training pairs. A trained model then greedily extends a seed
window: each step picks the first index of the maximum score. Finally, each
generated token is classified as a chord, a note or a skipped token, ready
for MIDI rendering.

Modules:

- `Results`: `Option` and `Result`.
- `StringOrder`: Python's ordering of `str` values, which is lexicographic
  by code point. It is proved irreflexive, transitive and total.
- `Vocabulary`: `sorted(set(notes))` built by insertion into a strictly
  sorted sequence, the two dictionaries `note_to_int` and `int_to_note`, and
  the encoding of the token stream.
- `OneHotCoding`: `np.eye(n)[k]`, and `np.argmax` as the first index of the
  maximum.
- `Windows`: the training windows and their targets as functions of the
  encoded stream.
- `Tokens`: the event→token mapping, `str.split('.')` and `'.'.join`,
  decimal printing and `int()` parsing, and the per-token rendering
  decision.
- `Generation`: the greedy generation loop as functions. These are `Step`,
  `Run` and `Generate`, together with their errors.
- `MusicGeneration`: the class `MusicGenerator`. Its three vocabulary
  fields are updated in place by `PrepareSequences`. Its loops are methods,
  each proved equal to the function that specifies it.

The trained network's `predict` is a parameter of type
`seq<seq<int>> -> seq<int>`: any total function from a window to a score
vector. The type fixes no length. Scores of any length are handled as the
source handles them, and only `Generation.RunSucceeds`,
`Generation.GenerateSucceeds` and
`MusicGeneration.MusicGenerator.ValidGenerationSucceeds` assume one score per
vocabulary entry. All other lemmas about generation hold for every predictor,
except the two worked examples `Generation.IndexBeyondWidthFails` and
`Generation.NarrowSeedRowFails`, which each fix one. Each generation step
fails where the source raises:
- an empty score vector;
- an index with no entry in `int_to_note` (`KeyError`);
- an index with no row in `np.eye(vocab_size)` (`IndexError`);
- a window that does not have exactly `seq_length` rows of `vocab_size` entries.

`DecodeSeed` only needs each seed row to be non-empty, and the rows need not
be one-hot. Seed rows that fall inside a window must have width `vocab_size`
(`Step`); `Generation.NarrowSeedRowFails` shows a seed that decodes and then
fails the reshape.

## Model

| member | source | states |
|---|---|---|
| StringOrder.Less | music_generator.py:69 | defines the order `sorted` uses: compare code points at the first differing position, and a proper prefix sorts before the longer string |
| StringOrder.LessIrreflexive | music_generator.py:69 | no token sorts strictly before itself |
| StringOrder.LessTransitive | music_generator.py:69 | the token ordering used by `sorted` is transitive |
| StringOrder.LessTotal | music_generator.py:69 | any two different tokens are ordered one way or the other |
| Vocabulary.Insert | music_generator.py:69 | inserting into a strictly sorted list keeps it strictly sorted and holds exactly the old tokens plus the new one |
| Vocabulary.SortedTokens | music_generator.py:69 | `sorted(set(notes))` is strictly increasing and holds exactly the tokens of `notes` |
| Vocabulary.SortedEnumerationUnique | music_generator.py:69 | two strictly sorted lists with the same tokens are equal, so the sorted vocabulary is uniquely determined |
| Vocabulary.SortedTokensCard | music_generator.py:69 | the sorted vocabulary has one entry per distinct token |
| Vocabulary.RankIsSortedPosition | music_generator.py:69 | for any strictly sorted listing of the distinct tokens, `note_to_int` maps its i-th entry to i |
| Vocabulary.NoteToInt | music_generator.py:69 | defines `note_to_int`: each token of the sorted vocabulary maps to its position |
| Vocabulary.IntToNote | music_generator.py:70 | defines `int_to_note`: each position 0..n-1 of the sorted vocabulary maps to the token there |
| Vocabulary.NoteToIntAt | music_generator.py:69 | `note_to_int` maps the i-th sorted token to i |
| Vocabulary.NoteToIntKey | music_generator.py:69-70 | every key of `note_to_int` is the sorted token at its own index |
| Vocabulary.MapSizeOfDistinct | music_generator.py:73 | `note_to_int` has exactly the sorted tokens as keys, and its size is their number |
| Vocabulary.VocabularyIsBijection | music_generator.py:69-73 | `vocab_size` is the number of distinct tokens; the keys of `note_to_int` are exactly the tokens of `notes`; `int_to_note` is defined on exactly 0..vocab_size-1; and the two maps are inverse to each other |
| Vocabulary.Encode | music_generator.py:75 | the encoded stream has one index per token |
| Vocabulary.EncodeRoundTrip | music_generator.py:75 | every token is a key; every encoded index is below `vocab_size`; and `int_to_note` of the i-th index gives back the i-th token |
| OneHotCoding.OneHot | music_generator.py:80 | a one-hot row has `vocab_size` entries |
| OneHotCoding.OneHotRows | music_generator.py:80 | `np.eye(n)[indices]` has one row per index |
| OneHotCoding.OneHotCounts | music_generator.py:80 | a one-hot row of a valid index holds exactly one 1, and all its other n-1 entries are 0 |
| OneHotCoding.Argmax | music_generator.py:120 | the result is an index whose value no entry exceeds, and every earlier entry is strictly smaller (the first maximum) |
| OneHotCoding.ArgmaxUnique | music_generator.py:120 | the first maximum is the only index with those two properties |
| OneHotCoding.ArgmaxOneHot | music_generator.py:123 | argmax of the one-hot row of k is k |
| OneHotCoding.DecodeRows | music_generator.py:114 | decoding rows by argmax gives one index per row |
| OneHotCoding.DecodeOneHotRows | music_generator.py:80 | decoding the one-hot rows of valid indices gives the indices back |
| Windows.WindowCount | music_generator.py:77 | defines the number of loop iterations: `len - seq_length` when positive, otherwise 0, because a range with a negative count is empty |
| Windows.Contexts | music_generator.py:77-80 | there are `max(0, len - seq_length)` input windows |
| Windows.Targets | music_generator.py:77-81 | there are `max(0, len - seq_length)` targets |
| Windows.WindowRoundTrip | music_generator.py:77-81 | window i has `seq_length` rows of width `vocab_size`, and decoding it and appending target i gives the slice `encoded[i..i+seq_length+1]` |
| Generation.LastRows | music_generator.py:118 | `buffer[-seq_length:]` is the suffix of the buffer with `seq_length` rows, or the whole buffer when it is shorter or `seq_length` is 0 |
| Generation.Shaped | music_generator.py:119 | defines when the reshape to `(1, seq_length, vocab_size)` succeeds: exactly `seq_length` rows, each of width `vocab_size` |
| Generation.Step | music_generator.py:118-123 | defines one iteration: `ShapeMismatch` unless the last `seq_length` rows have width `vocab_size`; then `EmptyVector`, `UnknownIndex` and `NoOneHotRow`, in the order the source raises them; otherwise it appends `int_to_note[k]` and the one-hot row of k, where k is the argmax of the scores |
| Generation.Run | music_generator.py:117-123 | defines `num_steps` iterations, the first failing one ending the call; a successful run adds exactly `num_steps` tokens and `num_steps` rows |
| Generation.Generate | music_generator.py:107-125 | defines `generate_music`: decode the seed, failing as the seed decoding fails; then run `num_steps` steps from the decoded tokens and the seed rows, and return the tokens |
| Generation.DecodeSeed | music_generator.py:114 | decoding the seed succeeds exactly when every row is non-empty and its argmax is a known index; on success it gives one token per row, namely `int_to_note` of that row's argmax |
| Generation.StepAppends | music_generator.py:117-123 | a successful step extends both lists by one entry; the new token and row come from the argmax of the model's scores on the previous `seq_length` rows, which is a known index below `vocab_size` |
| Generation.PredictedAtExtends | music_generator.py:117-123 | a generated position stays explained by its prediction after later steps |
| Generation.RunTrace | music_generator.py:117-123 | after n successful steps both lists have grown by n and keep their old contents as a prefix; every new position was predicted from exactly the `seq_length` rows before it |
| Generation.RunFailureSticks | music_generator.py:117-123 | once a step fails, the whole call fails with that error |
| Generation.RunKeepsCoherent | music_generator.py:114-123 | if the tokens are the argmax-decoding of the one-hot buffer, generation keeps them so |
| Generation.RunSucceeds | music_generator.py:117-123 | with a well-formed vocabulary and buffer, and a model that returns `vocab_size` scores, every step succeeds and adds one row of width `vocab_size` |
| Generation.GenerateShape | music_generator.py:107-125 | zero steps give exactly the decoded seed; a successful call returns `len(seed) + num_steps` tokens starting with the decoded seed |
| Generation.GenerateSucceeds | music_generator.py:107-125 | generation cannot fail when `vocab_size > 0`, `seq_length > 0`, the seed has at least `seq_length` rows of width `vocab_size`, the vocabulary's indices are exactly 0..vocab_size-1, and the model returns `vocab_size` scores |
| Generation.IndexBeyondWidthFails | music_generator.py:121-123 | with `int_to_note = {0: "A", 5: "C4"}`, `vocab_size = 3` and a model whose maximum is at index 5, one step fails because index 5 has no one-hot row |
| Generation.NarrowSeedRowFails | music_generator.py:118-119 | with a seed `[[1, 0, 0], [0, 1]]`, `seq_length = 1` and `vocab_size = 3`, the seed decodes, but the first window holds the width-2 row, and the reshape fails |
| Tokens.IsDigits | music_generator.py:135 | defines `str.isdigit`: non-empty, with every character an ASCII digit |
| Tokens.DigitChar | music_generator.py:60 | a digit below ten prints as an ASCII digit |
| Tokens.DecimalString | music_generator.py:60 | `str(n)` is a non-empty run of digits with no leading zero (it starts with `0` only for n = 0), and it is one character exactly when n < 10 |
| Tokens.DecimalRoundTrip | music_generator.py:60 | the digits of `str(n)` denote n |
| Tokens.ParseInt | music_generator.py:139 | defines `int(cn)`: an optional `-` or `+` followed by ASCII digits gives their value, negated after `-`; any other piece raises, reported as `None` |
| Tokens.ParseDecimal | music_generator.py:139 | `int(str(n)) == n` |
| Tokens.Split | music_generator.py:138 | `split('.')` returns at least one piece, and no piece contains a dot; there are two or more pieces exactly when the token contains a dot, and a dot-free token is returned whole |
| Tokens.JoinDots | music_generator.py:60 | defines `'.'.join`: the pieces in order, with a single dot between each two neighbours; no pieces give the empty string |
| Tokens.JoinSplit | music_generator.py:138 | `'.'.join(s.split('.')) == s` |
| Tokens.SplitAfterPiece | music_generator.py:138 | splitting a dot-free piece, then a dot, then the rest gives that piece followed by the split of the rest |
| Tokens.SplitJoin | music_generator.py:60 | splitting a join of one or more dot-free pieces gives the pieces back |
| Tokens.DecimalStrings | music_generator.py:60 | one printed piece per pitch class |
| Tokens.ChordToken | music_generator.py:60 | defines a chord's token: the decimal strings of its normal order, joined by dots |
| Tokens.EventToken | music_generator.py:56-60 | a note or a chord yields a token, and a rest yields none |
| Tokens.EventTokens | music_generator.py:55-61 | defines the tokens of one file: each note or chord contributes its token, in event order, and rests contribute nothing |
| Tokens.FileTokens | music_generator.py:54-61 | defines the tokens of all files: each file's event tokens, file after file |
| Tokens.EventTokensCount | music_generator.py:55-61 | the tokens of a file are its events minus its rests |
| Tokens.ChordTokenSplits | music_generator.py:60 | splitting a chord token gives back the printed pitch classes |
| Tokens.ParseAll | music_generator.py:139 | parsing all pieces succeeds exactly when every piece parses, and then gives each piece's value in order |
| Tokens.Transpose | music_generator.py:139 | transposing keeps one pitch per pitch class |
| Tokens.RenderToken | music_generator.py:134-144 | a token is skipped exactly when it is empty or all digits. Any other dot-free token that music21 accepts is added as that note. Any other dotted token whose pieces all parse is added as a chord: it has two or more pieces, and pitch i is `int(piece i) + 60`. A token is rejected exactly when it is neither skipped nor all-digit, and either it is dotted with a piece that does not parse, or it is dot-free and not accepted. An added note is always the token itself, dot-free, not all digits and accepted |
| Tokens.NoteEventRenders | music_generator.py:57-58 | a note event whose name is non-empty, not all digits, dot-free and accepted gives that name as its token, and the token renders as that note |
| Tokens.ChordTokenRenders | music_generator.py:137-140 | the token of a chord with two or more pitch classes renders as those pitch classes plus 60, in order |
| Tokens.OneClassChordSkipped | music_generator.py:135 | the token of a chord with at most one pitch class is skipped by rendering |
| Tokens.RenderedItems | music_generator.py:134-142 | defines what reaches the stream: for each token in order, the item `RenderToken` adds, and nothing for a skipped or rejected token |
| Tokens.RejectedTokens | music_generator.py:134-144 | defines the tokens whose `try` block raises, in order, exactly those `RenderToken` rejects |
| Tokens.RenderedItemsWellFormed | music_generator.py:133-144 | every rendered note is one of the input tokens, is non-empty, is not all digits and has no dot; every rendered chord has at least two pitches |
| Tokens.MajorTriadToken | music_generator.py:60 | the chord with normal order 0, 4, 7 has the token `0.4.7` |
| Tokens.RenderExamples | music_generator.py:135-140 | `0.4.7` renders as the chord 60, 64, 67, and `5` is skipped |
| Tokens.NoteExample | music_generator.py:141-144 | `C4` renders as a single note when music21 accepts the name, and is rejected otherwise |
| MusicGeneration.SlideWindows | music_generator.py:76-82 | given encoded indices all below `vocab_size`, which is the domain `np.eye(vocab_size)[sequence_in]` needs, the loop collects exactly the windows and targets that `Windows.Contexts` and `Windows.Targets` define |
| MusicGeneration.MusicGenerator.constructor | music_generator.py:21-34 | stores the configuration and starts with empty vocabulary maps and size 0, which is a valid (empty) bijection |
| MusicGeneration.MusicGenerator.PreprocessMidiFiles | music_generator.py:48-61 | the tokens are the event tokens of every file, in file order and then event order |
| MusicGeneration.MusicGenerator.BuildVocabulary | music_generator.py:69-73 | the fields become the sorted-rank vocabulary and form a bijection onto 0..vocab_size-1, whose keys are exactly the tokens of `notes` and whose size is the number of distinct tokens |
| MusicGeneration.MusicGenerator.PrepareSequences | music_generator.py:63-83 | the fields become the sorted-rank vocabulary and form a bijection onto 0..vocab_size-1, whose keys are exactly the tokens of `notes`; the results are the windows and targets of the encoded stream, `max(0, len - seq_length)` of each |
| MusicGeneration.RunSteps | music_generator.py:117-123 | the loop performs exactly the steps `Generation.Run` specifies, and stops at the first step that raises |
| MusicGeneration.MusicGenerator.ValidGenerationSucceeds | music_generator.py:107-125 | when the class invariant holds, `vocab_size > 0`, the seed has at least `seq_length > 0` rows of width `vocab_size`, and the model returns `vocab_size` scores, generation cannot fail |
| MusicGeneration.MusicGenerator.GenerateMusic | music_generator.py:107-125 | the result is what `Generation.Generate` specifies, failing at the first step that raises; zero steps give the decoded seed; success gives `len(seed) + num_steps` tokens that start with the decoded seed; the result is a success whenever the class invariant holds, `vocab_size > 0`, the seed has at least `seq_length > 0` rows of width `vocab_size`, and the model returns `vocab_size` scores |
| MusicGeneration.MusicGenerator.CreateMidiFromNotes | music_generator.py:127-145 | the items appended to the stream and the tokens whose construction raised are exactly those that `RenderToken` decides, in order |

## Left out

- `load_midi_files` (music_generator.py:36-46) walks the file system and parses MIDI files. The model starts from already parsed files, given as sequences of `Event` values.
- music21's event extraction is not modelled: `flat.notesAndRests`, `str(pitch)` spelling and the computation of `normalOrder`. A note carries its spelled name and a chord its normal order as data. Only notes, chords and rests are distinguished.
- `build_model` and `train_model` (Keras) are left out. The trained model is the `predict` parameter.
- Model scores are integers, not floating point. Only their order matters to `argmax`.
- `reshape(1, seq_length, vocab_size)` is modelled as requiring exactly `seq_length` rows of `vocab_size` entries. numpy would also accept a different row layout with the same number of entries.
- Rendering stops at the classification of each token. `pitch.Pitch(midi=…).nameWithOctave`, `chord.Chord`, `stream.Stream` and `stream.write` to `output_file` are not part of this model.
- Whether `note.Note(n)` accepts a name is a parameter (`acceptsName`). Tokens it rejects are collected in place of the printed error message.
- Tokens.RenderToken: a chord is added whenever all its pieces parse. A failure of `pitch.Pitch` or `chord.Chord` on unusual pitch numbers is not modelled.
- Tokens.ParseInt: accepts an optional sign followed by ASCII digits. Python's `int()` also allows surrounding whitespace, underscores and non-ASCII digits, which are not modelled.
- Tokens.IsDigits: `str.isdigit` is modelled on ASCII digits only.
- The defaults `seq_length=100` and `num_steps=100` are not modelled; both are explicit parameters.
- MusicGeneration.MusicGenerator.GenerateMusic: `num_steps` is a natural number. Python also accepts a negative count: `range` is then empty and the decoded seed comes back, which is the same result as zero steps.
- MusicGeneration.MusicGenerator.constructor: `seq_length` is a natural number. A negative `seq_length` would make the windows in `prepare_sequences` and the slice `[-seq_length:]` behave differently; this case is not modelled.
- `self.model` and the `__main__` block are left out. The `pip` lines are shell commands, not part of the program.
- MusicGeneration.MusicGenerator.GenerateMusic: the step loop is the module-level method `RunSteps`. The source runs it inline.
- MusicGeneration.MusicGenerator.PrepareSequences: the vocabulary half of the method is the helper `BuildVocabulary`, and the window loop is the helper `SlideWindows`. The source does both inline.
- MusicGeneration.MusicGenerator.PrepareSequences: the round trip of each window (`Windows.WindowRoundTrip`) is a separate lemma over the returned windows, not part of this method's postcondition.
