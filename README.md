# GoAPIfy core, modelled in Dafny

This project models the core of GoAPIfy, a Go API scaffold built on Gin and
GORM, and proves properties of that model. It covers:

- **The record/query binder of `model/database.go`.** The `model` struct has three fields:
  - `db`: the current query chain or transaction handle;
  - `tempData`: the bound record;
  - `memoryDB`: the snapshot taken by `BeginTransaction`.

  The struct is the class `Database.Binder`. Every state-changing method is proved to perform exactly one transition of the state machine `Database.Apply`. The transaction lemmas, chain lemmas and pagination lemmas are stated about that machine. A `*gorm.DB` handle is an abstract value (`Gorm.Handle`): the connection it runs on plus the clauses chained so far. GORM's terminal calls (`First`, `Find`, `Count`, `Save`, …) are opaque functions passed in as parameters.
- **The `.env` rewriting of `tools/core/function.go`** (`EnvFile`). `updateEnvVariable` is an imperative loop over the lines. It is proved against the specification function `UpdatedLines`.
- **The string helpers of `core/stringable/stringable.go`** (`Stringable`). `Reverse` swaps in place on an array. `RemoveVowels` and `RemoveConsonants` are accumulating loops.
- **The random-value helpers of `core/math/strings.go`** (`MathStrings`). The random draws are inputs.
- **The user formatters of `controller/user/formatter.go`** (`UserFormatter`).
- **The response envelope and validation-error flattening of `core/response.go`** (`Response`).
- **The pure steps of the `model` generator command of `tools/core/model.go`** (`ModelGenerator`): the capitalised struct name, template substitution, and registration in the migration list.
- **The terminal colour constants and `ColorizeCmd` of `core/helper/color.go`** (`Color`). These are Select Graphic Rendition control sequences, section 8.3.117 of ECMA-48.

Two more modules support the rest:

- `GoStrings` models the Go standard-library string functions these files call: `strings.Split`, `Join`, `TrimSpace`, `ToUpper`, `ToLower`, `Contains` and `ReplaceAll`. It adds `Count`, the number of occurrences that `ReplaceAll` replaces, which is used to state `ReplaceAll`'s effect on length.
- `Common` holds `Option`, `Result` and `Error`.

Strings are `seq<char>`, one `char` per rune.

Transactions behave as follows:

- **The snapshot is never read back.** `BeginTransaction` saves `db` in `memoryDB`, and nothing ever reads it. Commit and rollback leave `db` on the finished transaction (`Database.TransactionNeverRestored`, `Database.SnapshotNeverRead`).
- **A second `BeginTransaction` overwrites the snapshot** (`Database.NestedBeginLosesHandle`).

## Model

| member | source | states |
|---|---|---|
| GoStrings.Split | tools/core/function.go:60-62 | `strings.Split` always yields at least one piece, so `getParts` and `getLines` are never empty |
| GoStrings.SplitPiecesFree | tools/core/function.go:60-62 | no piece of a split contains the separator |
| GoStrings.JoinSplit | tools/core/function.go:55-57 | joining the pieces of a split with the separator gives back the original text |
| GoStrings.SplitFirst | tools/core/function.go:41-47 | the first piece is the prefix of the text up to, and not including, the first separator (or all of the text) |
| GoStrings.SplitNoSeparator | tools/core/function.go:60-62 | a text without the separator splits into itself alone |
| GoStrings.SplitAtSeparator | tools/core/function.go:60-62 | splitting `a + sep + b`, where `a` has no separator, gives `a` followed by the pieces of `b` |
| GoStrings.SplitJoin | tools/core/function.go:36-37 | splitting the join of one or more separator-free pieces gives back exactly those pieces |
| GoStrings.LeadingSpace | tools/core/function.go:65-67 | the count of white-space runes at the start: all of them are white space and the next rune is not |
| GoStrings.TrailingSpace | tools/core/function.go:65-67 | the count of white-space runes at the end: all of them are white space and the rune before is not |
| GoStrings.TrimSpace | tools/core/function.go:65-67 | a non-empty trimmed text neither starts nor ends with white space and is never longer than the input |
| GoStrings.TrimSpaceSlice | tools/core/function.go:65-67 | the trimmed text is the contiguous slice of the input that starts right after the leading white space |
| GoStrings.TrimSpaceNoSpace | tools/core/function.go:65-67 | a text with no white space at either end is left unchanged |
| GoStrings.TrimSpaceIdempotent | tools/core/function.go:65-67 | trimming twice is trimming once |
| GoStrings.UpperChar | core/stringable/stringable.go:13-15 | lower-case ASCII letters map to the upper-case letter 32 code points lower; every other rune is unchanged |
| GoStrings.LowerChar | core/stringable/stringable.go:17-19 | upper-case ASCII letters map to the lower-case letter 32 code points higher; every other rune is unchanged |
| GoStrings.Join | tools/core/function.go:37 | `strings.Join`; `JoinSplit` and `SplitJoin` make it the inverse of `Split` |
| GoStrings.ToUpper | core/stringable/stringable.go:13-15 | `strings.ToUpper`, rune by rune with `UpperChar`; `Stringable.UpperCase` states its contract |
| GoStrings.ToLower | core/stringable/stringable.go:17-19 | `strings.ToLower`, rune by rune with `LowerChar`; `Stringable.LowerCase` states its contract |
| GoStrings.Contains | tools/core/model.go:70 | `strings.Contains`; `CountPositiveIffContains` ties it to the scan of `ReplaceAll` |
| GoStrings.Count | tools/core/model.go:75 | the number of non-overlapping occurrences, scanning from the left, that `ReplaceAll` replaces; `ReplaceAllLength` and `CountPositiveIffContains` state its role |
| GoStrings.ReplaceAll | tools/core/model.go:39 | `strings.ReplaceAll` with a non-empty pattern; the `ReplaceAll…` lemmas state its properties |
| GoStrings.CountPositiveIffContains | tools/core/model.go:70-75 | the left-to-right scan of `ReplaceAll` finds an occurrence exactly when `strings.Contains` holds |
| GoStrings.ReplaceAllAbsent | tools/core/model.go:75 | replacing a pattern that does not occur changes nothing |
| GoStrings.ReplaceAllLength | tools/core/model.go:75 | the result length is the input length plus the number of occurrences times (replacement length − pattern length) |
| GoStrings.ReplaceAllInserts | tools/core/model.go:75 | when the pattern occurs, the result contains everything the replacement contains |
| GoStrings.ReplaceSingle | tools/core/model.go:75 | with a single occurrence, `ReplaceAll(before + pat + after)` is `before + rep + after` |
| GoStrings.ReplaceAllJoined | tools/core/model.go:39 | replacing a pattern in pieces joined by it gives the same pieces joined by the replacement, when no piece holds the pattern's first rune |
| Color.SgrPrefix | core/helper/color.go:8-15 | the SGR prefix `ESC [ 1 ; 3 N m` is seven runes, starts with ESC and has no `%` |
| Color.PaletteShape | core/helper/color.go:8-15 | each of the eight colour constants is the prefix for colour number 0..7, exactly one `%s`, then the reset `ESC [ 0 m` |
| Color.Render | core/helper/color.go:22 | `fmt.Sprintf` with one string operand: `%%` prints `%`, the first `%s` prints the operand, a later one `%!s(MISSING)`, and an unused operand `%!(EXTRA string=…)`; its lemmas are `RenderLiteral` and `ColorizeCmdShape` |
| Color.Sprintf | core/helper/color.go:22 | `Render` from the start of the format with the operand not yet used |
| Color.ColorizeCmd | core/helper/color.go:21-23 | `fmt.Sprintf(color, text)`; `ColorizeCmdShape` states its result for every colour constant |
| Color.RenderLiteral | core/helper/color.go:22 | `fmt.Sprintf` copies text without `%` through unchanged |
| Color.ColorizeCmdShape | core/helper/color.go:21-23 | `ColorizeCmd(c, t)` is the SGR prefix of `c`, then `t` verbatim (even with `%` in it), then the reset; its length is `len(c) - 2 + len(t)` |
| Stringable.LettersSplit | core/stringable/stringable.go:29-49 | the 10 vowels and 42 consonants are disjoint, and together they are exactly the ASCII letters |
| Stringable.Capitalize | core/stringable/stringable.go:5-11 | the empty text stays empty; otherwise the first rune is upper-cased, the rest is unchanged, and the length is preserved |
| Stringable.CapitalizeIdempotent | core/stringable/stringable.go:5-11 | capitalising twice is capitalising once; the first rune equals `UpperCase` of the first rune |
| Stringable.UpperCase | core/stringable/stringable.go:13-15 | the length is preserved, each lower-case letter becomes its upper-case letter (32 code points lower), no lower-case letter is left, and every other rune is kept |
| Stringable.LowerCase | core/stringable/stringable.go:17-19 | the length is preserved, each upper-case letter becomes its lower-case letter (32 code points higher), no upper-case letter is left, and every other rune is kept |
| Stringable.CaseMappingIdempotent | core/stringable/stringable.go:13-19 | both mappings are idempotent, and each absorbs the other when applied first |
| Stringable.Reversed | core/stringable/stringable.go:21-27 | the reversal specification: length preserved and position `k` holding `s[n-1-k]`; `ReversedInvolution` and `Reverse` state its properties |
| Stringable.ReversedInvolution | core/stringable/stringable.go:21-27 | reversing twice gives the original text |
| Stringable.Reverse | core/stringable/stringable.go:21-27 | the two-index in-place swap loop preserves length and puts `s[n-1-k]` at position `k` |
| Stringable.Strip | core/stringable/stringable.go:29-49 | filtering keeps only runes of the input that are not in the drop set, and never lengthens |
| Stringable.StripAppend | core/stringable/stringable.go:29-49 | filtering distributes over concatenation, so the order of kept runes is preserved |
| Stringable.StripNothing | core/stringable/stringable.go:29-49 | a text with nothing to drop is returned unchanged |
| Stringable.StripIdempotent | core/stringable/stringable.go:29-49 | filtering twice is filtering once |
| Stringable.RemoveVowels | core/stringable/stringable.go:29-38 | the accumulating loop returns the in-order filtering of `s` by `aeiouAEIOU`, with no vowel left |
| Stringable.RemoveConsonants | core/stringable/stringable.go:40-49 | the accumulating loop returns the in-order filtering of `s` by the 42 consonants, with no consonant left |
| Stringable.StripAllLetters | core/stringable/stringable.go:29-49 | removing vowels and then consonants leaves no ASCII letter |
| MathStrings.CharsetIndex | core/math/strings.go:12 | the position of an alphanumeric rune in the charset, always below 62; `CharsetIsAlphanumeric` and `CharsetIndexInverse` make it the inverse of indexing |
| MathStrings.CharsetIsAlphanumeric | core/math/strings.go:12 | the 62-rune charset holds every lower-case letter, upper-case letter and digit exactly once |
| MathStrings.CharsetIndexInverse | core/math/strings.go:12 | every alphanumeric rune is found at its index in the charset |
| MathStrings.RandomString | core/math/strings.go:10-24 | the result has exactly `length` runes; rune `i` is the charset entry chosen by draw `i`, so it is alphanumeric |
| MathStrings.RandomNumber | core/math/strings.go:28-30 | for `min <= max` with a width that does not wrap in 64 bits, and a draw in `[0, max-min]`, the result lies in `[min, max]` and is `min` plus the draw |
| MathStrings.NumSetsDigits | core/math/strings.go:46 | `"1234567890"` has ten decimal digits, and position `k` holds digit `(k+1) mod 10` |
| MathStrings.DigitFor | core/math/strings.go:54 | the digit written for byte `b` is a decimal digit with value `(b mod 10 + 1) mod 10` |
| MathStrings.RandomNumberString | core/math/strings.go:35-59 | a read error gives the empty text and that error; otherwise exactly `length` digits, digit `i` being `"1234567890"[b_i mod 10]` of random byte `b_i` |
| EnvFile.GetParts | tools/core/function.go:50-52 | the trimmed line split at every `=`; `PartsOfLine` states its properties |
| EnvFile.GetKey | tools/core/function.go:41-47 | the first part, or `""` when there is none; `KeyOfLine` and `KeyWithinLine` state its properties |
| EnvFile.PartsOfLine | tools/core/function.go:50-52 | `getParts` returns at least one part; no part holds `=`; joined with `=` the parts give the trimmed line |
| EnvFile.KeyOfLine | tools/core/function.go:41-47 | the key is the trimmed line up to its first `=` (or all of it), and holds no `=` |
| EnvFile.GetLines | tools/core/function.go:55-57 | `getLines` returns at least one line, and joining the lines with newline gives back the text |
| EnvFile.FirstAssignment | tools/core/function.go:20-34 | the index of the first non-empty, non-`#` line whose key is the variable name, or the line count when there is none |
| EnvFile.UpdatedLines | tools/core/function.go:20-34 | only the first matching line becomes `name=value`; every other line, including every empty and `#` line, is kept at its index; with no match nothing changes |
| EnvFile.UpdateEnvVariable | tools/core/function.go:15-38 | the loop that overwrites in place and breaks returns exactly the lines of `UpdatedLines` joined by newline |
| EnvFile.KeyWithinLine | tools/core/function.go:41-47 | a key holds no rune that its line does not hold |
| EnvFile.UpdateKeepsLineCount | tools/core/function.go:15-38 | when the value has no newline, the output has as many lines as the input, and they are exactly the updated lines |
| EnvFile.UpdateWithoutMatchIsIdentity | tools/core/function.go:20-37 | when no line assigns the variable, the output is the input exactly |
| Database.Apply | model/database.go:64-282 | the state after one state-changing binder method. Builders append clauses to `db`, `Load` sets `tempData`, and `BeginTransaction` moves `db` to `memoryDB`. Commit and rollback change nothing. Each Binder method's `ensures` ties it to this function, and the transition lemmas below are stated about it |
| Database.Perform | model/database.go:64-282 | the state after a sequence of binder methods, in order; the sequence lemmas below are stated about it |
| Database.TotalPages | model/database.go:147 | `int(math.Ceil(float64(total) / float64(perPage)))`; `TotalPagesIsCeiling`, `TotalPagesZero` and `PagesCoverRecords` state its properties |
| Database.OrderSpec | model/database.go:95-99 | the order clause is the column, a space, and the mode upper-cased rune by rune, not validated |
| Database.Boxed | model/database.go:225-230 | `Distinct` passes the columns to GORM with the same count and order |
| Database.BuilderFrame | model/database.go:80-282 | each builder keeps `tempData` and `memoryDB`. Every builder except `ApplyScope` only appends clauses to `db`, on the same connection. The builders are at lines 80-83, 95-108, 174-177, 204-232 and 264-282 |
| Database.NestedBeginLosesHandle | model/database.go:182-187 | a second `BeginTransaction` overwrites the snapshot with the first transaction, so the original handle is held in no field any more |
| Database.BuildersOnlyRefine | model/database.go:80-282 | any chain of builders keeps the bound record and the snapshot; without `ApplyScope` it only refines `db` |
| Database.TransactionNeverRestored | model/database.go:182-199 | after `BeginTransaction`, commits, rollbacks and builders other than `ApplyScope` leave `db` on the transaction's connection, so the binder never returns to its earlier connection |
| Database.AfterBeginStaysOnTx | model/database.go:191-199 | without a further begin or scope, no method changes the connection of `db` or the snapshot |
| Database.SnapshotNeverRead | model/database.go:182-199 | `memoryDB` is never read: states that differ only in it reach the same `db` and `tempData` after any sequence of methods |
| Database.PagingClausesPersist | model/database.go:139-140 | offset `(page-1)*perPage` and limit `perPage` stay on `db` after `Paginate`, through any later builders other than `ApplyScope` |
| Database.TotalPagesIsCeiling | model/database.go:147 | for `perPage > 0` the page count is the integer ceiling: `(pages-1)*perPage < total <= pages*perPage` |
| Database.TotalPagesZero | model/database.go:147 | for `perPage > 0` and a non-negative total, the page count is non-negative, and zero exactly when there are no records |
| Database.PagesCoverRecords | model/database.go:139-147 | each page from 1 to the page count starts before the last record, and the page after the last starts at or beyond it |
| Database.PageOf | model/database.go:147-155 | the metadata carries the model, page and perPage. The total is the count, or 0 when counting failed. The page count is the ceiling for `perPage > 0` |
| Database.PaginateExample | model/database.go:135-158 | 25 records at 10 per page: page 3 starts at offset 20 and is the last of 3; a failed count reports 0 pages |
| Database.Binder.NewModel | model/database.go:52-55 | `db` and `memoryDB` are both the given connection, and no record is bound |
| Database.Binder.Load | model/database.go:64-67 | sets only `tempData` and returns the receiver |
| Database.Binder.Where | model/database.go:80-83 | appends the condition to `db` and returns the receiver; nothing else changes |
| Database.Binder.OrderBy | model/database.go:95-100 | appends the order clause built from the column and the upper-cased mode; nothing else changes |
| Database.Binder.Limit | model/database.go:105-108 | appends the limit to `db`; nothing else changes |
| Database.Binder.With | model/database.go:174-177 | appends the preload of the relation to `db`; nothing else changes |
| Database.Binder.GroupBy | model/database.go:211-214 | appends the group clause to `db`; nothing else changes |
| Database.Binder.Having | model/database.go:218-221 | appends the having condition to `db`; nothing else changes |
| Database.Binder.Distinct | model/database.go:225-232 | the loop that boxes the columns into a fresh array hands GORM the columns in order; only `db` changes |
| Database.Binder.ApplyScope | model/database.go:204-207 | `db` becomes the scope's result; nothing else changes |
| Database.Binder.WithCount | model/database.go:264-267 | appends the join, the `COUNT(r.id) as r_count` select and the group by `r.id`; nothing else changes |
| Database.Binder.WhereHas | model/database.go:271-274 | appends the join and the callback condition; nothing else changes |
| Database.Binder.OrWhereHas | model/database.go:279-282 | appends the join and the callback as an OR condition; nothing else changes |
| Database.Binder.BeginTransaction | model/database.go:182-187 | the pre-call `db` moves into `memoryDB`, `db` becomes the transaction the pre-call `db` began, and `tempData` is kept |
| Database.Binder.CommitTransaction | model/database.go:191-193 | returns the commit error of the current `db` and changes no field |
| Database.Binder.RollbackTransaction | model/database.go:197-199 | returns the rollback error of the current `db` and changes no field |
| Database.Binder.Count | model/database.go:121-128 | a failed count gives `(0, err)`; otherwise `(count, nil)` |
| Database.Binder.Find | model/database.go:72-75 | returns the bound record whether or not `First` failed, with its error |
| Database.Binder.Get | model/database.go:88-90 | returns the error of `Find` into the bound record on the current chain |
| Database.Binder.Save | model/database.go:163-169 | returns the error of `Save` on the bound record, or none |
| Database.Binder.Delete | model/database.go:113-116 | returns the error of `Delete` on the bound record |
| Database.Binder.UpdateColumn | model/database.go:237-239 | returns the error of `UpdateColumn(column, value)` on the current chain |
| Database.Binder.UpdateColumns | model/database.go:244-246 | returns the error of `UpdateColumns(values)` on the current chain |
| Database.Binder.Max | model/database.go:251-253 | scans `MAX(?) as max`, with the column bound as its argument, on a chain that is not kept |
| Database.Binder.Min | model/database.go:258-260 | scans `MIN(?) as min`, with the column bound as its argument, on a chain that is not kept |
| Database.Binder.Paginate | model/database.go:135-158 | offset and limit are chained onto `db` for good; a failed `Find` gives no pagination and its error; otherwise `PageOf` of the count taken on the pre-call chain with the model added |
| UserFormatter.Format | controller/user/formatter.go:38-47 | copies ID, Name, Email, VerifiedAt, CreatedAt and UpdatedAt unchanged |
| UserFormatter.FormatWithToken | controller/user/formatter.go:52-62 | copies the same six fields and sets the token |
| UserFormatter.WithoutTokenIsFormat | controller/user/formatter.go:38-62 | dropping the token from `UserWithTokenFormatter(u, t)` gives `UserFormatter(u)` |
| UserFormatter.SecretsNotExposed | controller/user/formatter.go:38-62 | the password, avatar path and deletion time never affect either format; the token affects only the token field |
| UserFormatter.FormatInjective | controller/user/formatter.go:38-47 | users with the same secret fields have equal formats exactly when they are equal |
| UserFormatter.FormatCollection | controller/user/formatter.go:68-74 | the append loop gives one format per user, in order; an empty input gives an empty result |
| Response.FormatResponse | core/response.go:32-40 | message, code and status go into `Meta`, and the data is passed through unchanged |
| Response.GiveResponse | core/response.go:71-79 | the envelope always has message `"Failed to register"` and status `"error"`; its code and the HTTP status are the given status |
| Response.GiveResponseOnlyStatusVaries | core/response.go:73 | envelopes for the same payload differ only in the code, and they are equal exactly when the statuses are |
| Response.ErrorText | core/response.go:57 | `err.Error()`: a validation list's field texts each followed by a newline, trimmed; a wrapped error's prefix and then the inner text |
| Response.AsValidation | core/response.go:50 | `errors.As`: the first validation list on the wrap chain, or none |
| Response.FormatValidationErrorsAsWritten | core/response.go:45-61 | the code as written, including the panic of the single-value type assertion; `AsWrittenPanicsOnWrappedValidation` states when it panics |
| Response.ValidationMessages | core/response.go:45-61 | a validation list, wrapped or not, gives one message per field error in order; any other error gives its own text as the single message |
| Response.AsWrittenPanicsOnWrappedValidation | core/response.go:50-54 | the code as written panics exactly on a wrapped validation list, and otherwise returns the intended messages |
| Response.WrappedValidationCounterexample | core/response.go:50-52 | a validation list wrapped by `fmt.Errorf("bind: %w", …)` makes the code as written panic |
| Response.FormatValidationErrors | core/response.go:45-61 | the corrected loop returns exactly `ValidationMessages(err)`, never empty unless the list is empty |
| ModelGenerator.ModelName | tools/core/model.go:25 | the struct name is the model name with its first rune upper-cased, and the same length |
| ModelGenerator.Registration | tools/core/model.go:75 | the inserted line is two tabs, the `&Name{}` marker and `,\n`, which is seven runes longer than the name |
| ModelGenerator.RenderTemplate | tools/core/model.go:39 | the template with every `${modelName}` replaced by the struct name; its lemmas are `RenderTemplateFillsPlaceholders` and `RenderTemplateLength` |
| ModelGenerator.RenderTemplateFillsPlaceholders | tools/core/model.go:39 | for a template whose literal text holds no `$`, every `${modelName}` is replaced by the struct name and all other text is kept |
| ModelGenerator.RenderTemplateLength | tools/core/model.go:39 | for any template, the result grows by (name length − placeholder length) per placeholder, and a template without the placeholder is copied unchanged |
| ModelGenerator.RegisterModel | tools/core/model.go:70-75 | the migration text unchanged when it already lists `&Name{}`, otherwise with the registration line inserted after every anchor; its lemmas are the `Register…` rows below |
| ModelGenerator.RegistrationHasMarker | tools/core/model.go:70-75 | the inserted text contains the marker that the guard looks for |
| ModelGenerator.RegisterGuard | tools/core/model.go:70-73 | a migration text that already lists `&Name{}` is left unchanged |
| ModelGenerator.RegisterLength | tools/core/model.go:75 | the length grows by one registration line per `AutoMigrate(\n`; with no anchor nothing changes; with one, the model is listed afterwards |
| ModelGenerator.RegisterIdempotent | tools/core/model.go:70-75 | registering the same model twice gives the same text as registering it once |
| ModelGenerator.RegisterInsertsAfterAnchor | tools/core/model.go:75 | with one anchor, the registration line is inserted right after it and nothing else changes |
| ModelGenerator.Overwrite | tools/core/model.go:76-81 | writing from the start without truncating keeps the written text as a prefix, and the file never shrinks |
| ModelGenerator.RegisterOverwritesCleanly | tools/core/model.go:76-81 | the rewritten migration is never shorter, so writing it over the file leaves exactly the rewritten text |

## Left out

- GORM itself:
  - SQL generation, execution, row decoding into `tempData`, `Preload`, and `Save`'s insert-or-update choice;
  - `First`'s not-found error, and what `UpdateColumn(s)`, `Max` and `Min` compute.

  Handles are values, and terminal calls are opaque functions of the handle.
- GORM's in-place mutation of a chained statement: a `*gorm.DB` is a pure value here. So `Paginate`'s `m.db.Model(model).Count(...)` is modelled as leaving `db` untouched.
- `AutoMigration` (model/database.go:14-20): it is one GORM call.
- Database.Binder.Max and Database.Binder.Min bind the column as a value (`MAX(?)`), which SQL treats as a constant, not a column. What the database returns for that is not modelled.
- The Go interface-type values behind `interface{}` (query expressions, `tempData`, scan targets): they are the small datatypes `Gorm.Arg` and `Gorm.Target`.
- Database.TotalPages: `math.Ceil` over `float64` is modelled as exact integer ceiling division. Rounding for totals beyond 2^53 is not modelled. For `perPage == 0` the `float64` quotient is infinite or NaN. Its conversion to `int` is platform-specific, so the model gives amd64's `-2^63` and proves nothing about it.
- `int` and `int64` wrap-around in `(page-1)*perPage` and in the counts: integers are unbounded.
- MathStrings.RandomNumber requires `max - min < 2^63 - 1`. When `max - min + 1` wraps around in Go's 64-bit `int`, `rand.Intn` panics, and the model does not cover that case.
- ModelGenerator.RenderTemplateFillsPlaceholders covers only templates whose literal text holds no `$`. For any other template, `ModelGenerator.RenderTemplateLength` gives only the length of the result, and no text is lost when no placeholder occurs.
- `make` with a negative length panics in `RandomString` and `RandomNumberString`, and `rand.Intn` panics for `max < min`. Lengths are `nat`, and `RandomNumber` requires `min <= max`.
- The random generator itself: `rand.Intn` and `rand.Read` draws are parameters with their stated ranges.
- Unicode case mapping, and `TrimSpace`'s treatment of invalid UTF-8: case mapping is ASCII-only, and one `char` is one rune.
- Stringable.Capitalize: Go upper-cases the first byte, `s[0]`, which splits a multi-byte first rune. The model upper-cases the first rune. The two agree on ASCII.
- `strings.ReplaceAll` and `strings.Count` with an empty pattern: the patterns used here are never empty.
- A nil slice versus an empty one: `UserCollectionFormatter` and `FormatValidationErrors` return nil for an empty result, which JSON encodes as `null`. The model returns `[]`.
- `VerifiedAt` is a `*time.Time`, so the formats share the pointee with the user record. It is an `Option<Time>` value here, and aliasing is not modelled.
- `FormatValidationErrors(nil)` panics on `err.Error()`. The model's `GoError` is never nil.
- `model.User` (model/user.go:10-17) is a value with the fields of the embedded `gorm.Model` and the user's own fields. `AvatarPath` and `VerifiedAt` are pointers there and `Option` values here.
- The `Model` command's name validation, file-existence check, template and migration file I/O, and console output (tools/core/model.go:13-86, apart from the steps above). Their helpers are not part of this model.
- The Gin `c.JSON` call in `GiveResponse`, and the HTTP layer in general.
- `KeyGenerate` and the other file-handling commands of tools/core/function.go: they are file and console I/O around `updateEnvVariable`.

## Findings

| source | as written | input that shows it | evidently intended | confidence | as-written member | corrected member |
|---|---|---|---|---|---|---|
| core/response.go:50-52 | the guard `errors.As(err, &validationErrors)` looks through `%w` wrapping, but the loop ranges over `err.(validator.ValidationErrors)`, a type assertion on the outer error itself | `fmt.Errorf("bind: %w", validator.ValidationErrors{…})`, i.e. `Wrapped("bind: ", Validation([FieldError("Key: 'Email' Error:required")]))`: `errors.As` succeeds, and the assertion panics | range over `validationErrors`, the list `errors.As` found: one message per field error, in order | not executed | Response.WrappedValidationCounterexample | Response.FormatValidationErrors |
