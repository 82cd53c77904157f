# quizonepagepaginate block — Dafny model

This project models the server-side core of the Moodle block `block_quizonepagepaginate`.

The first part covers the generic helpers of `classes/Utility.php`:
- GUID recognition
- a multi-needle substring search
- two descending comparators
- count-or-minus-one
- prefix removal
- the classification rules of "maybe JSON" decoding
- minutes-to-"HH:MM" formatting

The second part covers the decision rules of the block class in `block_quizonepagepaginate.php`:
- how the quiz row is normalised (blocks shown, all questions on one page)
- which questions-per-page value is handed to the page script
- the precedence and memoisation of the visibility check
- the early returns of content generation
- the page-type guard on instance creation

The model uses immutable datatypes and pure functions. PHP values are a `PhpValue` datatype and strings are `seq<char>`. The block's object fields are a `BlockState` record that each operation takes and returns. Database reads are inputs (`Site`). Database writes and the script call are returned, in order, as a list of `Effect`s.

Modules:
- `Wrappers`: `Option` and `Result`.
- `Decimal`: digit strings and `sprintf('%02d')`.
- `Php`: the PHP 8 built-ins the helpers call — `is_numeric` (as a scanner over PHP's numeric-string grammar), `strpos`/`mb_strpos` with offset resolution, `str_starts_with`, `is_countable` and `count`.
- `Utility`: the helpers of the `Utility` class.
- `Block`: the block class.

Where the source's own comments and its code disagree, the model follows the code:
- `is_guid`'s doc comment says it "removes braces". The pattern rejects braces, and its first dash is optional.
- `get_data_from_maybe_json`'s doc comment says non-JSON values come back unchanged. But the `is_numeric` test comes first (classes/Utility.php:307), so numeric strings that are not JSON, such as `"+5"`, `".5"`, `"007"` and `"1."`, are converted to numbers.
- The same comment says a valid JSON value is decoded. But only strings whose first character is `{`, `[` or `"` reach `json_decode` (classes/Utility.php:325). Valid JSON with leading whitespace, such as `" [1]"`, comes back as the string.

## Model

| member | source | states |
|---|---|---|
| Utility.IsGuid | classes/Utility.php:61-70 | an accepted string has length 35, 36 or 37 (one trailing newline allowed by `$`) and contains no brace |
| Utility.RenderIsGuid | classes/Utility.php:68-70 | every 8-4-4-4-12 hex rendering, first dash optional, is accepted, with or without a trailing newline |
| Utility.GuidIsRendered | classes/Utility.php:68-70 | every accepted string is such a rendering of 32 hex digits, possibly followed by one newline (the converse of RenderIsGuid) |
| Utility.IsGuidStrict | classes/Utility.php:61-69 | the intended check: accepted strings are 35 or 36 long, never end in a newline, and are accepted by `is_guid` too |
| Utility.IsGuidStrictIsRendered | classes/Utility.php:68-69 | the intended check accepts exactly the 8-4-4-4-12 renderings |
| Utility.IsGuidAcceptsTrailingNewline | classes/Utility.php:69 | every GUID followed by "\n" passes `is_guid` but not the intended check |
| Utility.StrPosABool | classes/Utility.php:95-106 | no needles gives false; an offset outside the haystack makes the first search throw; otherwise the result is true iff some needle occurs at or after the resolved offset |
| Php.Find | classes/Utility.php:100 | the first occurrence at or after the start index: a match there, none before it, and None exactly when there is no match at all |
| Php.StrPos | classes/Utility.php:100 | a ValueError exactly when the offset lies outside the haystack; otherwise a hit iff the needle occurs from the resolved offset on, and a hit is the first occurrence at or after that offset |
| Php.ResolveOffset | classes/Utility.php:100 | an offset resolves iff it lies in -len..len; a non-negative offset resolves to itself and a negative one counts from the end, to len + offset |
| Utility.SortByCreatedDesc | classes/Utility.php:117-122 | result in {-1, 0, 1}; 0 iff the `created` keys are equal, -1 iff `a`'s is larger, 1 iff it is smaller |
| Utility.SortByStartDesc | classes/Utility.php:132-137 | result in {-1, 0, 1}; 0 iff the `start` keys are equal, -1 iff `a`'s is larger, 1 iff it is smaller |
| Utility.ComparatorsAreConsistent | classes/Utility.php:117-137 | both comparators are antisymmetric (cmp(a,b) == -cmp(b,a)) and transitive |
| Utility.SortedByCreatedDescIsNewestFirst | classes/Utility.php:108-122 | a list ordered pairwise by the comparator is in non-increasing `created` order throughout |
| Utility.SortedByStartDescIsLatestFirst | classes/Utility.php:124-137 | a list ordered pairwise by the comparator is in non-increasing `start` order throughout |
| Utility.CountIfCountable | classes/Utility.php:173-181 | -1 iff the value is not countable, a non-negative count iff it is: the number of entries for an array, the object's own count for a Countable object |
| Utility.RemovePrefix | classes/Utility.php:183-196 | if the text starts with the prefix then prefix + result == text, otherwise the text is returned; the result is always a suffix of the text |
| Utility.RemovePrefixRoundTrip | classes/Utility.php:191-196 | removing a prefix undoes prepending it |
| Utility.PlusZero | classes/Utility.php:307-309 | `0 + $value` leaves ints and floats unchanged and always yields a number |
| Utility.GetDataFromMaybeJson | classes/Utility.php:298-334 | non-strings unchanged; numeric strings converted; short non-numeric strings unchanged; `null`/`true`/`false` map to their literals; strings led by `{`, `[` or `"` are decoded, a failed (null) decode keeping the string; other strings unchanged; null comes only from null or "null" |
| Php.NumericLeadingChar | classes/Utility.php:307-325 | a numeric string starts with whitespace, a sign, a digit or a point, so JSON-led strings and the literals never take the numeric branch |
| Php.IntegerStringIsNumeric | classes/Utility.php:307 | every optionally signed run of digits passes `is_numeric` |
| Decimal.Digits | classes/Utility.php:351 | the `%d` rendering is a non-empty digit string whose value is the number, with no leading zero |
| Decimal.Format02d | classes/Utility.php:344-351 | the `%02d` rendering has at least two digits, exactly two below 100, and its value is the number |
| Utility.MinutesToHoursMins | classes/Utility.php:336-352 | the empty string iff minutes < 1; otherwise at least five characters with a colon before the last two |
| Utility.MinutesToHoursMinsWidth | classes/Utility.php:344-351 | for minutes >= 1 the clock is exactly five characters iff minutes < 6000 (hours below 100), and it starts with a zero only in that form: hours are padded to two digits and no further |
| Utility.MinutesToHoursMinsRoundTrip | classes/Utility.php:344-351 | for minutes >= 1 the output reads back as hours H and minutes M with H*60 + M == minutes and 0 <= M < 60 |
| Utility.MinutesToHoursMinsInjective | classes/Utility.php:344-352 | distinct positive inputs give distinct outputs |
| Block.NormaliseQuiz | block_quizonepagepaginate.php:148-157 | afterwards showblocks >= 1 (kept when already >= 1, else 1) and questionsperpage == 0; id and every other column unchanged |
| Block.NormaliseQuizIdempotent | block_quizonepagepaginate.php:150-157 | normalising twice equals normalising once |
| Block.AutoupdateQuizConfig | block_quizonepagepaginate.php:130-165 | a missing quiz row throws; otherwise exactly one write of the normalised row (showblocks kept when >= 1, else 1; questionsperpage 0; id and other columns unchanged), made even when the row already was normalised |
| Block.InstanceCreate | block_quizonepagepaginate.php:92-105 | off quiz pages nothing happens; on pages whose type starts with `mod-quiz-` the quiz row and then the block's page-type pattern `mod-quiz-*` are written; it returns true whenever it returns |
| Block.BoolProperty | block_quizonepagepaginate.php:183-186 | a property counts only when it exists, is set and holds a bool |
| Block.IsVisible | block_quizonepagepaginate.php:177-192 | the block's own bool wins, then the instance's bool; otherwise the lookup answer is returned and stored in `visible`; nothing else changes |
| Block.IsVisibleMemoised | block_quizonepagepaginate.php:182-191 | a second call returns the same answer and state whatever the lookup says then |
| Block.QuestionsPerPage | block_quizonepagepaginate.php:218-226 | the configured value when set and numeric, unchanged, otherwise 1; always numeric |
| Block.QuestionsPerPageKeepsIntegerString | block_quizonepagepaginate.php:218-226 | a configured value written as an optionally signed run of digits is passed to the script unchanged, as a string |
| Block.GetContent | block_quizonepagepaginate.php:194-235 | hidden gives `''` with no effects; built content is returned with no effects; a missing quiz row throws before any write; otherwise quiz write, pattern write and script call with the questions-per-page value happen in that order and the default content is stored; on every path the visibility answer `is_visible` memoises is kept in the returned block |
| Block.GetContentOnce | block_quizonepagepaginate.php:209-212 | after a call that returned content, a second call returns the same content, performs nothing and leaves the block unchanged |

## Left out

- amd/src/module.js: DOM querying and styling only. It shows the first two questions, and its `init` takes no parameter, so the value the block passes is unused.
- classes/Cache.php and classes/FeatureControl.php: a wrapper over Moodle's cache API, switched off by a constant.
- classes/MoodleUtility.php: database queries and SHA-1 hashing. The `block_positions` visibility lookup is the input `Site.positionVisible`. The block passes its own context id where the lookup expects a block-instance id (block_quizonepagepaginate.php:191, classes/MoodleUtility.php:59), so the query usually finds no row and answers true; the input is left unconstrained.
- The other `Utility` members:
  - `is_empty`: PHP `empty()` coercion rules.
  - `var_dump`: printing and memory-limit side effects.
  - `get_request_headers`: server globals.
  - `get_lines_in_file_matching`: file I/O.
  - `filepath_relative_to_plugin`: filesystem paths.
  - `is_unixtime_past`: wall clock.
  - `array_orderby`: delegates to `array_multisort`.
- `json_decode` and the conversion of a numeric string to a number: oracles passed to `GetDataFromMaybeJson`. Which strings are numeric is modelled.
- `minutes_to_hours_mins` with a caller-supplied format: only the default `'%02d:%02d'` is modelled.
- Block methods with no logic:
  - `init`: title lookup.
  - `applicable_formats`, `has_config`, `instance_allow_multiple`: constant returns.
  - `specialization`: adds a body class.
  - debug logging in the other methods, which is switched off.
- Finding the quiz through the block's context, `get_fast_modinfo` and `get_cm`: the input `Site.quiz`. Any failure there counts as a missing row.
- Block.GetContent: its debug logging is switched on (block_quizonepagepaginate.php:201). Each call formats a non-empty config with `Utility::var_dump`, and each content build formats a non-empty questions-per-page value (`0` and `"0"` are empty and skip it). That raises the memory limit and uses the constant `INTEGRITYADVOCATE_REGEX_DATAURI` (classes/Utility.php:153, 170). lib.php is not part of this model; the model assumes it defines that constant. Were it undefined, PHP 8 would throw at the first such call: at the start when the config is non-empty, otherwise after the page-type write and before the script call. Either way the build path would not perform all of its stated effects. The log output itself is not modelled.
- Utility.MinutesToHoursMins: `floor($minutes / 60)` is modelled as exact integer division. PHP computes it in floating point, which loses precision above 2^53 minutes. For such inputs the round trip holds in the model but not in PHP.
- Utility.CountIfCountable: a Countable object's `count()` is modelled as non-negative. An object reporting a negative count would be indistinguishable from -1.
- Utility.StrPosABool: the result alone is stated. Stopping at the first hit is not observable in it.
- Utility.SortByCreatedDesc: keys are modelled as integers. PHP's loose `==` and `>` between strings or mixed types are not modelled. The same holds for Utility.SortByStartDesc.
- Block.NormaliseQuiz: columns are modelled as integers. Moodle returns them as strings, so `questionsperpage !== 0` always holds in PHP. The row written is the same either way.
- Php.StrPos: strings are character sequences. Byte offsets (`strpos`) and character offsets (`mb_strpos`) are not distinguished. For the prefix test in `remove_prefix` they agree.
- Floats are exact reals. Signed zero and rounding are not modelled.
- The `!is_array($needles)` branch of `strposabool`: unreachable, because the parameter is typed `array`.

## Findings

| source | as written | input that shows it | evidently intended | confidence | as-written member | corrected member |
|---|---|---|---|---|---|---|
| classes/Utility.php:69 | the pattern ends in `$` without the D modifier, and `$` also matches before a final newline | `"0123abcd-4567-89ab-cdef-0123456789ab\n"` is reported as a GUID | only the 35- or 36-character GUID itself is accepted | medium, not executed | Utility.IsGuidAcceptsTrailingNewline | Utility.IsGuidStrictIsRendered |
