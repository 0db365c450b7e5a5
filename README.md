# Live tuning console of the large-circle demos, in Dafny

The two large-circle scripts of this repository drive a shader through a
small live tuning console. An `Options` object holds named parameters, and
every frame pushes them to the shader as uniforms. A GLFW key callback edits
the parameters while the window is open. The earlier script has hot-keys
only. The later one adds a shift-aware key translator and a command line:
`;` or `:` with a modifier held enters command mode, typed characters go
into a buffer, Escape cancels, and Enter commits the text `name value` (or
`name=value`). The committed text assigns a literal to the named attribute.

The model has these modules:

- `Events`: the GLFW constants the callbacks test, the Python exceptions
  that can escape, and `Reply`, which says how a callback ended (returned,
  asked the window to close, or raised).
- `KeyTranslator`: `KeyboardHandler`, that is the shift table and `process_key`.
- `Registry`: the attributes of the later `Options` as one value
  (`Settings`), the declared fields in declaration order, typed get and set,
  the display-mode cycle and the `__str__` summary.
- `Text`: the Python string operations the console uses.
- `Literal`: a closed grammar for the value part of a command.
- `Interpreter`: the Enter commit path (normalise, split once, assign).
- `FrameSync`: `Options.set` as the list of (uniform, value) pushes it makes,
  and how that list is shaped.
- `Console`: the two-mode `key_callback` as a step function on `Settings`,
  its properties, and the `Options` class. Its methods update the fields in
  place and are proved equal to the step function and to the frame push.
- `LargeCircle`: the earlier script's callback, startup values, summary
  line and `Options` class.

The clock reading (`time.time()` as used by `get_time`) is a parameter
`now`. The three `random.random()` draws of the `f` hot-key are a parameter
`rnd`.

## Model

| member | source | states |
|---|---|---|
| KeyTranslator.CharOf | large-circle-v2.py:109 | `chr(key)` succeeds exactly on the Unicode scalar range and yields the character with that code; otherwise ValueError (None). |
| KeyTranslator.Lower | large-circle-v2.py:109 | `.lower()` never yields an upper-case letter, keeps letters letters, and fixes lower-case letters and non-letters. |
| KeyTranslator.Upper | large-circle-v2.py:117 | `.upper()` never yields a lower-case letter, keeps letters letters, fixes other characters, and agrees with the input after `.lower()`. |
| KeyTranslator.Translate | large-circle-v2.py:112-119 | Without shift a character is kept. With shift, a key of the table (`ShiftMap`, lines 98-104) becomes a different non-letter that reads back to it through the reversed table, and a letter becomes its upper-case form. |
| KeyTranslator.ProcessKey | large-circle-v2.py:107-119 | A result exists exactly when `chr(key)` succeeds. Without shift it is never upper case. For a letter key the result is a letter, upper case exactly when shift is held. |
| KeyTranslator.ShiftedBranches | large-circle-v2.py:112-117 | With shift held, a digit or punctuation key always takes the table entry and a letter key always takes the upper-case branch. |
| KeyTranslator.ShiftBitOnly | large-circle-v2.py:110 | Only bit 0 (MOD_SHIFT) of the modifier mask affects the translation. |
| KeyTranslator.ShiftRoundTrip | large-circle-v2.py:107-119 | For any key whose character is not itself a shifted symbol, un-shifting the shifted result gives the unshifted result. |
| KeyTranslator.ShiftMapSize | large-circle-v2.py:98-105 | The shift table has 21 entries, so its 21 listed keys are pairwise distinct. |
| KeyTranslator.ShiftMapKeys | large-circle-v2.py:98-105 | The table's keys are exactly the ten digits and the eleven US-layout punctuation keys. |
| KeyTranslator.ShiftMapNoLetters | large-circle-v2.py:98-105 | No key and no value of the table is a letter, and no entry maps a character to itself. |
| KeyTranslator.ShiftMapInjective | large-circle-v2.py:98-105 | No two keys share a shifted character. |
| KeyTranslator.UnshiftInverts | large-circle-v2.py:98-105 | Reading the table backwards undoes every entry. |
| Registry.FieldNamed | large-circle-v2.py:238-270 | An attribute name maps to the declared field with that name; when it maps to none, no field has that name. |
| Registry.NameRoundTrip | large-circle-v2.py:238-270 | Every declared field's name maps back to that field. |
| Registry.NamesDistinct | large-circle-v2.py:238-270 | The 15 annotated fields each have their own name, each appears once in the declaration order, and `blink_freq` is not one of them. |
| Registry.Position | large-circle-v2.py:238-270 | Every field has a place in the declaration order. |
| Registry.Get | large-circle-v2.py:238-270 | Reading a field yields a value of that field's declared type. |
| Registry.Put | large-circle-v2.py:159 | Storing succeeds exactly when the value has the field's type. |
| Registry.PutGet | large-circle-v2.py:159 | A stored value is read back, and every other field and `blink_freq` are unchanged. |
| Registry.NextIdleMode | large-circle-v2.py:290-292 | `(m + 1) % 3` lies in 0..2, is m + 1 for modes 0 and 1, and is 0 after mode 2. |
| Registry.NextIdleModeCycle | large-circle-v2.py:290-292 | From a valid mode, the next mode differs, and three switches give back the start. |
| Registry.NamePlain | large-circle-v2.py:239-270 | Attribute names are non-empty and use only lower-case letters, digits and `_`. |
| Registry.AssignmentSplits | large-circle-v2.py:279 | Each `name=text` entry of a summary splits at its first `=` back into the field's name and its formatted value. |
| Registry.LinesNamed | large-circle-v2.py:272-279 | The summary has one line per annotated field, in declaration order, and line i splits at its `=` into the i-th field's name and that field's formatted value. |
| Registry.SummaryDisplayLines | large-circle-v2.py:272-279 | `Registry.Summary` joins the lines with a double bar. Splitting it on the double bar, as the render callback does at line 225, gives back exactly the 15 lines in order, when none of these settings' formatted values contains a bar character. |
| Text.Replace | large-circle-v2.py:154 | `str.replace` for one character: same length, each occurrence replaced and nothing else touched. |
| Text.Strip | large-circle-v2.py:154 | `str.strip()` gives the part of the text between its leading and its trailing whitespace: no whitespace at either end, and what comes before and after it is all whitespace. A text already stripped is kept. |
| Text.StripNonEmpty | large-circle-v2.py:157 | Stripping a text that ends in a non-space character leaves a non-empty text. |
| Text.SplitOnce | large-circle-v2.py:156 | `split(' ', 1)` unpacks into two parts exactly when a space occurs; the text is then the first part, the space and the rest, and the first part holds no space. |
| Text.SplitJoin | large-circle-v2.py:225 | Splitting a join on its separator gives back the parts when no part contains the separator's first character. |
| Literal.InParens | large-circle-v2.py:159 | Parentheses around a single number denote that number, as Python reads `(x)`; otherwise they hold a tuple of numbers, with an optional trailing comma. |
| Literal.DecimalValue | large-circle-v2.py:159 | Every decimal numeral `w.f` (either part may be empty, not both), with an optional sign, denotes the float w + f / 10^k, where k is the number of digits of f, negated after `-`. |
| Literal.IntegerValue | large-circle-v2.py:159 | Every decimal integer numeral without a leading zero, with an optional sign, denotes that integer as an int literal. |
| Literal.ParseTuple | large-circle-v2.py:159 | Two or more numerals written `(t1, ..., tn)` denote the tuple of their numbers, in order. |
| Literal.ParseList | large-circle-v2.py:159 | A bracketed list whose items are numerals or parenthesised runs of two or more numerals, written `[i1, ..., in]`, denotes the list of those numbers and groups, in order. `[]` denotes the empty list. |
| Literal.TrailingComma | large-circle-v2.py:159 | One comma after a whole value (`ratio 0.5,`) leaves its meaning unchanged, as the value is the last argument of `setattr(opt, "name", value)`. |
| Literal.ParseWrapped | large-circle-v2.py:159 | The token forms `n`, `(n)`, `(n,)` and `[n,]` denote the number, the number, a one-element tuple and a one-element list. |
| Literal.ParseNumeral | large-circle-v2.py:159 | `Literal.ParseValue` reads every numeral text `t` as its number, `(t)` as that number too, `(t,)` as a one-element tuple and `[t,]` as a one-element list. |
| Literal.DecimalNumerals | large-circle-v2.py:159 | The numerals `0.5` and `-0.25` denote the floats 0.5 and -0.25. |
| Literal.ParseNat | large-circle-v2.py:159 | The decimal text of every natural number reads back as that integer. |
| Interpreter.Normalize | large-circle-v2.py:154 | After `=` becomes a space and the text is stripped, no `=` remains and neither end is whitespace. |
| Interpreter.SplitCommand | large-circle-v2.py:156-157 | The split fails exactly when there is no space. Otherwise the name holds no space, the text is the name plus a space plus the rest, and the value is the rest stripped. |
| Interpreter.SplitNormalized | large-circle-v2.py:154-157 | On a normalised text a successful split never yields an empty name or an empty value. |
| Interpreter.SplitTrimmed | large-circle-v2.py:156-157 | A text with no whitespace at either end splits into two non-empty parts. |
| Interpreter.Target | large-circle-v2.py:154-156 | A commit has a target name exactly when its normalised text holds a space. |
| Interpreter.Coerce | large-circle-v2.py:159 | An accepted literal always has the declared type of the field it is stored in. |
| Interpreter.Converted | large-circle-v2.py:159 | The value a text converts to for a field, when there is one, has that field's declared type. |
| Interpreter.Assign | large-circle-v2.py:159-161 | `setattr` stores the value the text converts to in the named declared field, or sets `blink_freq` to the number the text denotes. When the name is neither, or the value does not convert, the settings are unchanged. Every field with another name, and `blink_freq` unless named, is unchanged. |
| Interpreter.Interpret | large-circle-v2.py:154-161 | A commit changes at most the field its text names and `blink_freq` only when the text names it; failures change nothing. |
| Interpreter.InterpretWithoutValue | large-circle-v2.py:154-161 | A text with no space after normalisation (such as `blink_freq` alone) changes nothing. |
| Interpreter.InterpretUnknownName | large-circle-v2.py:159-161 | A name that is neither a declared field nor `blink_freq` changes nothing. |
| Interpreter.NormalizeAssignment | large-circle-v2.py:154 | `name value` and `name=value` normalise to `name value` when both parts are words. |
| Interpreter.SplitAssignment | large-circle-v2.py:156-157 | `name value` splits into the name and the value when both are words. |
| Interpreter.InterpretAssignment | large-circle-v2.py:154-161 | For two words, committing `name value` or `name=value` is the assignment of value to name. |
| Interpreter.InterpretField | large-circle-v2.py:154-161 | Committing `field value` or `field=value` stores the converted value in that field, or changes nothing when the value does not convert. No other field and not `blink_freq` changes. |
| Interpreter.InterpretNumber | large-circle-v2.py:154-161 | Committing `field n` or `field=n`, for a float or int field, stores n in that field and changes nothing else. |
| Interpreter.ConvertedColor | large-circle-v2.py:159 | A parenthesised run of numerals converts for `focus_color` exactly when there are three of them, and then gives the colour of their numbers. |
| Interpreter.ConvertedEdges | large-circle-v2.py:159 | A bracketed list of numerals converts for `ring_edges` to the list of their numbers. |
| Interpreter.ConvertedPatches | large-circle-v2.py:159 | A bracketed list of parenthesised numeral triples converts for `selected_patches` to the list of their (p, q, dim) triples. |
| Interpreter.InterpretSplit | large-circle-v2.py:154-159 | When the normalised text splits at its first space, the commit assigns the stripped rest to the name before it. |
| Interpreter.InterpretNoSplit | large-circle-v2.py:154-161 | When the normalised text does not split, the unpacking fails and the commit changes nothing. |
| Interpreter.ConvertedNumber | large-circle-v2.py:159 | A natural number's text converts to that number for a float field and for an int field. |
| Interpreter.InterpretBlinkFreq | large-circle-v2.py:159 | Committing `blink_freq n` creates or overwrites the blink frequency with n and changes nothing else. |
| Interpreter.WordNames | large-circle-v2.py:238-270 | Every attribute name, and `blink_freq`, is a word (no whitespace, no `=`). |
| Interpreter.NatWord | large-circle-v2.py:159 | A natural number's decimal text is a word. |
| FrameSync.ScalarPushes | large-circle-v2.py:295-326 | A frame starts with eleven pushes, each to a plain uniform and no uniform twice. |
| FrameSync.FrameScalars | large-circle-v2.py:294-326 | Every frame, complete or not, pushes each of the eleven scalar uniforms exactly once, with the current value of its field. `uTime` gets `now - tic` and the two flags are pushed as 0 or 1. |
| FrameSync.LaterNoScalar | large-circle-v2.py:328-346 | Nothing after the scalar head pushes a scalar uniform, however the frame ends. |
| FrameSync.Indexed | large-circle-v2.py:333-335 | The loop `for i in range(k)` makes exactly k pushes. |
| FrameSync.Frame | large-circle-v2.py:294-346 | A frame completes exactly when there are fewer than 100 patches and between 1 and 99 ring edges. It fails with AssertionError exactly when a list has 100 or more entries, and with IndexError (`ring_edges[-1]`) exactly when the ring list is empty and the patch list is short enough. |
| FrameSync.FrameStartsWithScalars | large-circle-v2.py:295-326 | However a frame ends, it starts with the eleven scalar pushes, in order. |
| FrameSync.ElementsOfConcat | large-circle-v2.py:294-346 | The array elements pushed by two consecutive parts of a frame are those of the first part followed by those of the second. |
| FrameSync.ValuesOfConcat | large-circle-v2.py:294-346 | The same holds for the values pushed to a plain uniform. |
| FrameSync.IndexedOwn | large-circle-v2.py:333-335 | The loop pushes elements 0 .. k-1 of its array, in order, each with its own value. |
| FrameSync.IndexedOther | large-circle-v2.py:333-335 | The loop pushes no element of any other array. |
| FrameSync.IndexedNoValues | large-circle-v2.py:333-335 | The loop pushes no plain uniform. |
| FrameSync.ElementRuns | large-circle-v2.py:328-346 | In a completed frame, only the two loops push array elements. |
| FrameSync.FramePatchElements | large-circle-v2.py:329-335 | A completed frame pushes exactly n `uSelectedPatches` elements: indices 0 .. n-1 with the current patches. |
| FrameSync.FrameEdgeElements | large-circle-v2.py:338-346 | A completed frame pushes exactly m `uRingEdges` elements: indices 0 .. m-1 with the current edges. |
| FrameSync.CountValues | large-circle-v2.py:329-343 | What a completed frame pushes to a count uniform or to `uMaxR`, part by part. |
| FrameSync.FrameCounts | large-circle-v2.py:329-343 | A completed frame pushes `uNumSelectedPatches` once (as n), `uNumRings` once (as m) and `uMaxR` once (as the last ring edge). |
| FrameSync.FrameTooManyPatches | large-circle-v2.py:329-330 | A frame stopped by the patch-count assert has pushed only the eleven scalars and no array element. |
| Console.ModeFieldsOnly | large-circle-v2.py:140-165 | Changing only the mode flag and the buffer leaves every other declared field unchanged. |
| Console.Step | large-circle-v2.py:126-201 | `key_callback`: only Escape pressed in normal mode closes the window. ValueError comes exactly from a key code `chr` rejects. IndexError comes only from Backspace on an empty buffer in command mode. AttributeError comes only from a blink hot-key before `blink_freq` exists. Each exception leaves the settings unchanged. |
| Console.CommandKey | large-circle-v2.py:140-165 | The command-mode branch never closes the window and raises only IndexError, only for Backspace on an empty buffer, then changing nothing. Any key but Enter changes no parameter. Enter ends with an empty buffer outside command mode. |
| Console.Commit | large-circle-v2.py:153-163 | Enter ends with an empty buffer outside command mode, whether or not the split and the assignment succeed. It changes no parameter other than the one the text names. |
| Console.NormalKey | large-circle-v2.py:167-201 | The normal-mode branch leaves the buffer alone and turns command mode on exactly for the chord. It closes the window only for Escape, and raises only AttributeError, from a blink hot-key without `blink_freq`, then changing nothing. |
| Console.BlinkKey | large-circle-v2.py:193-199 | The blink hot-keys change only `blink_freq` and keep it within [0.5, 20]. Other characters change nothing. Without `blink_freq` they raise AttributeError and change nothing. |
| Console.AllowedChars | large-circle-v2.py:147 | Every character of the allowed set is ASCII and none is upper case. |
| Console.SpecialKeyChar | large-circle-v2.py:135 | Escape, Enter and Backspace translate, whatever the modifiers, to a character beyond ASCII that is not allowed, not a chord character and not a hot-key. |
| Console.NonPressIgnored | large-circle-v2.py:132-133 | Events other than a press change nothing, including the buffer and the mode. |
| Console.InvalidKeyRaises | large-circle-v2.py:135 | A key code `chr` rejects raises ValueError before anything changes. |
| Console.CommandKeyConsistent | large-circle-v2.py:140-165 | The command-mode branch keeps the invariant: the buffer is empty outside command mode and holds only allowed characters. |
| Console.StepConsistent | large-circle-v2.py:126-201 | Every key event keeps the invariant `Console.Consistent`: the buffer is empty outside command mode and holds only allowed characters. |
| Console.EscapeLeavesCommandMode | large-circle-v2.py:142-144 | In command mode, Escape empties the buffer, leaves command mode and changes nothing else. |
| Console.EnterCommits | large-circle-v2.py:153-163 | In command mode, Enter is the commit, and ends with the buffer empty and command mode off whatever the text was. |
| Console.EnterStores | large-circle-v2.py:153-163 | In command mode, Enter on the buffer `field value` or `field=value` stores the converted value in that field (or keeps the field when the value does not convert). It changes no other parameter and ends with an empty buffer outside command mode. |
| Console.CommitWithoutValue | large-circle-v2.py:154-163 | A commit whose text has no space after normalisation changes no parameter. |
| Console.BackspacePops | large-circle-v2.py:150-151 | In command mode, Backspace drops the last character, or raises IndexError on an empty buffer and then changes nothing. |
| Console.TypingAppends | large-circle-v2.py:147-148 | In command mode, any other key appends its character exactly when that character is allowed, and otherwise changes nothing. |
| Console.CommandModeNoHotKeys | large-circle-v2.py:140-165 | In command mode, no key other than Enter changes a parameter: the branch returns before the hot-keys. |
| Console.ShiftedLetterNotTyped | large-circle-v2.py:147-148 | A letter key with shift held gives an upper-case letter, which is never appended. |
| Console.ChordEntersCommandMode | large-circle-v2.py:168-170 | In normal mode, `;` with any modifier (`:` with shift) enters command mode and changes nothing else. |
| Console.PlainSemicolonIgnored | large-circle-v2.py:168-170 | Without a modifier, `;` changes nothing. |
| Console.EscapeCloses | large-circle-v2.py:173-175 | In normal mode, Escape asks the window to close and changes nothing. |
| Console.RotationToggle | large-circle-v2.py:178-179 | `r` maps rotation_speed x to 1 - x and changes nothing else. |
| Console.RotationTwice | large-circle-v2.py:178-179 | Pressing `r` twice restores the settings. |
| Console.BlinkToggle | large-circle-v2.py:182-183 | `b` negates blink_toggle and changes nothing else. |
| Console.BlinkToggleTwice | large-circle-v2.py:182-183 | Pressing `b` twice restores the settings. |
| Console.FocusColorDraw | large-circle-v2.py:186-187 | `f` sets focus_color to the three random draws and changes nothing else. |
| Console.IdleModeKey | large-circle-v2.py:190-191 | `s` moves to the next display mode, which lies in 0..2; three presses from a valid mode come back. |
| Console.BlinkFaster | large-circle-v2.py:194-195 | `=` raises blink_freq by 1 with any modifier held and by 0.1 without, capped at 20. The result is exactly the old value plus the step below the cap, never above 20, and never below the old value when that was at most 20. Without blink_freq it raises AttributeError and changes nothing. |
| Console.BlinkSlower | large-circle-v2.py:198-199 | `-` lowers blink_freq by 1 with any modifier held and by 0.1 without, floored at 0.5. The result is exactly the old value minus the step above the floor, never below 0.5, and never above the old value when that was at least 0.5. Without blink_freq it raises AttributeError and changes nothing. |
| Console.NormalModeKeepsBlinkRange | large-circle-v2.py:193-199 | Normal-mode keys keep a blink frequency within [0.5, 20]. |
| Console.Initial | large-circle-v2.py:357-363 | The startup settings keep the buffer invariant and the blink range, have a display mode in 0..2, and their first frame completes. |
| Console.PushIndexed | large-circle-v2.py:333-335 | The indexed loop appends exactly the pushes `FrameSync.Indexed` describes. |
| Console.Options.Startup | large-circle-v2.py:357-363 | `Options()` with the class defaults, then the script's assignments of ratio, tic and selected_patches. |
| Console.Options.ClearCommand | large-circle-v2.py:281-282 | Empties the buffer and changes nothing else. |
| Console.Options.SwitchIdleDisplayMode | large-circle-v2.py:290-292 | The display mode becomes `(m + 1) % 3` and nothing else changes. |
| Console.Options.SetReal | large-circle-v2.py:159 | setattr of a float field, as `Registry.Put`. |
| Console.Options.SetInt | large-circle-v2.py:159 | setattr of an int field, as `Registry.Put`. |
| Console.Options.SetField | large-circle-v2.py:159 | setattr of a declared field with a value of its type, as `Registry.Put`. |
| Console.Options.SetAttr | large-circle-v2.py:159-161 | The eval'd setattr of a commit changes the fields as `Interpreter.Assign` says. |
| Console.Options.StepBlink | large-circle-v2.py:194-199 | Steps blink_freq up (capped at 20) or down (floored at 0.5), or fails and changes nothing when there is no blink_freq. |
| Console.Options.CommitCommand | large-circle-v2.py:153-163 | The Enter branch changes the fields as `Console.Commit` says. |
| Console.Options.TypeKey | large-circle-v2.py:140-165 | The command-mode branch changes the fields, and ends, as `Console.CommandKey` says. |
| Console.Options.HotKey | large-circle-v2.py:167-201 | The normal-mode branch changes the fields, and ends, as `Console.NormalKey` says. |
| Console.Options.BlinkHotKey | large-circle-v2.py:193-199 | The two blink hot-keys change the fields, and end, as `Console.BlinkKey` says. |
| Console.Options.KeyCallback | large-circle-v2.py:126-201 | `key_callback` changes the fields, and ends, as `Console.Step` says, so every property proved of `Step` holds of the class. |
| Console.Options.Set | large-circle-v2.py:294-346 | `Options.set` makes exactly the pushes of `FrameSync.Frame` and ends the same way; it changes no field. |
| LargeCircle.Step | large-circle.py:92-120 | `key_callback` changes only rotation_speed, blink_toggle and blink_freq. It closes the window exactly on an Escape press. It raises ValueError exactly for a key code `chr` rejects, and then changes nothing. |
| LargeCircle.Run | large-circle.py:92-120 | Any sequence of key events changes only rotation_speed, blink_toggle and blink_freq. |
| LargeCircle.Initial | large-circle.py:206-214 | The startup assignments put blink_freq within [0.5, 20]. |
| LargeCircle.NonPressIgnored | large-circle.py:98-99 | Events other than a press change nothing. |
| LargeCircle.InvalidKeyRaises | large-circle.py:101 | A key code `chr` rejects raises ValueError before anything changes. |
| LargeCircle.EscapeCloses | large-circle.py:115-118 | Escape asks the window to close and changes no attribute. |
| LargeCircle.RotationToggle | large-circle.py:103-104 | `r` (either case) maps rotation_speed x to 1 - x; pressing it twice restores the settings. |
| LargeCircle.BlinkToggle | large-circle.py:106-107 | `b` (either case) negates blink_toggle; pressing it twice restores the settings. |
| LargeCircle.BlinkFaster | large-circle.py:109-110 | `=` or `+` raises blink_freq by 0.1, capped at 20. The result is never above 20, never below the old value when that was at most 20, and exactly the old value plus 0.1 below the cap. |
| LargeCircle.BlinkSlower | large-circle.py:112-113 | `-` or `_` lowers blink_freq by 0.1, floored at 0.5. The result is never below 0.5, never above the old value when that was at least 0.5, and exactly the old value minus 0.1 above the floor. |
| LargeCircle.StepKeepsRange | large-circle.py:109-113 | Every key event keeps blink_freq within [0.5, 20]. |
| LargeCircle.RunKeepsRange | large-circle.py:92-120 | Any sequence of key events keeps blink_freq within [0.5, 20] once it is there. |
| LargeCircle.StartupKeepsRange | large-circle.py:206-214 | The startup value 3 is in range, and stays in range whatever keys are pressed. |
| LargeCircle.NamePlain | large-circle.py:149-160 | Attribute names are non-empty and use only lower-case letters and `_`. |
| LargeCircle.SummaryOrder | large-circle.py:161-166 | `LargeCircle.Summary` splits back on `, ` into eight entries in declaration order, entry i splitting at its `=` into the i-th attribute's name and its formatted value, when none of these settings' formatted values contains a comma. |
| LargeCircle.Options.Startup | large-circle.py:206-214 | `Options()` followed by the script's assignments yields the startup settings. |
| LargeCircle.Options.KeyCallback | large-circle.py:92-120 | `key_callback` changes the attributes, and ends, as `LargeCircle.Step` says. |

## Left out

- OpenGL and GLFW plumbing: shader compilation, buffers, uniform locations and draw calls. A frame is the list of pushes it would make, and `glfw.set_window_should_close` is the `CloseWindow` reply.
- `print` calls and text drawing on screen: they have no effect on the state.
- The clock: `get_time` and `reset_time` are modelled through a `now` parameter (`uTime` is `now - tic`, and `tic` is set to `now` at startup).
- `random.random()` in the `f` hot-key: the three draws are the parameter `rnd`.
- Python `eval` and `setattr` in general. The value part of a command is read by a closed literal grammar: decimal numerals with an optional sign, a number in parentheses (which is that number), parenthesised tuples of numbers, and bracketed lists of numbers or of such tuples, each with an optional trailing comma. One more comma may follow the whole value (`ratio 0.5,`), since the value is the last argument of the eval'd call. Other Python literal forms leave the settings unchanged: exponents, hexadecimal, underscores in numbers, a sign separated by a space, `True`/`False`, strings and any other expression. So does a value that closes the call's parenthesis early, such as `1), (2`, which Python evaluates as a tuple whose first element performs the setattr. So does the creation of attributes other than `blink_freq`.
- Interpreter.Assign: stores a value only in a declared field of matching type, and `blink_freq` only as a number; Python's setattr would store a value of any type there.
- Interpreter.Assign: a command naming one of `Options`' methods (`clear_command`, `set`, `switch_idle_display_mode`, `get_time`, `reset_time`, `__str__`) leaves the settings unchanged in the model. In Python, setattr replaces the method with the value. `clear_command 1` then raises TypeError at line 162 of large-circle-v2.py, in the same Enter, and again at every later Enter or Escape. `set 1` or `get_time 1` makes every later frame raise TypeError (lines 207 and 302). `__str__ 1` makes the summary line raise (line 225). `switch_idle_display_mode 1` makes the `s` hot-key raise.
- Interpreter.Coerce: does not model an int literal as distinct from a float stored in a float field. A float field stores the value as a real, and an int field takes only integral literals.
- Float formatting in `__str__` (`0.2f`, `str()`): this is the parameter `show`. Floating-point rounding of the 0.1 and 1.0 steps is not modelled either: blink_freq and the other floats are reals.
- Case mapping is ASCII-only. For GLFW key codes (at most 348) this changes none of the characters the callbacks test. For larger key codes it can: Python's `chr(0x212A).lower()` is `k`, which command mode would append, while the model keeps U+212A and appends nothing. For Escape, Enter and Backspace (256, 257, 259) the model keeps the key's own code, and Python differs in three cases. Escape without shift gives 257 (`chr(256).lower()`). Enter with shift gives 256 (`.upper()` of 257). Backspace with shift gives 258 (`.upper()` of 259). All of these are non-ASCII characters the callbacks never test, so the outcome of every key event is the same.
- Text.Strip: removes only ASCII whitespace. Python's `strip()` also removes U+0085, U+00A0, U+2000-U+200A, U+3000 and other Unicode spaces, none of which can be in the command buffer.
- `chr` of a surrogate code (0xD800-0xDFFF) succeeds in Python. The model treats it as a ValueError, because a Dafny `char` cannot hold a surrogate.
- The later script's `Options.get_time`/`reset_time` and the earlier script's `Options.set` (a fixed list of eight scalar pushes) are not modelled.
- `util/triangle_render.py`, `util/easy_imports.py` and `full-screen-rect.py` are not part of this model.

Behaviour of the code that the model keeps as written:

- the shift table has 21 entries;
- a frame whose length assert fails has already made the eleven scalar pushes, or more, so the uniforms it pushed stay pushed;
- entering command mode does not clear the buffer, which is empty then only because of the invariant `Console.Consistent`;
- in the later script `blink_freq` is not a declared attribute, so the `=`/`-` hot-keys raise AttributeError until a `blink_freq` command has created it (`blinkFreq: Option<real>`);
- Backspace on an empty buffer raises IndexError out of the callback.
