# passgen-web password generator, modelled in Dafny

The one piece of logic in the passgen-web page is `generatePassword`, in the
`Home` component. Four checkboxes (uppercase, lowercase, numbers, symbols)
choose which fixed character groups go into a charset. The groups are appended
in a fixed order. An empty charset puts the text "Please select at least one
option" into the password field. Otherwise the page builds a password of the
slider's length, one charset character per random draw. When the page mounts,
an effect builds a first password of 16 characters from a hand-written copy of
the full charset.

The model has five modules:

- `CharGroups` (`groups.dfy`): the four group literals. The symbol group is
  `!@#$%^&*()_+-=[]{}|;:,.<>?`, which has 26 characters. `ClassOf` is an
  independent classification of a character, by code-point range for
  letters and digits and by membership for symbols. It is the reference
  against which group and charset membership are proved.
- `Charset` (`charset.dfy`): the flags, and `Build`, the charset assembled
  in the page's order. Its length, layout, membership and class order are
  proved.
- `Generator` (`generator.dfy`): the empty-charset check and the sampling
  step. It has two forms: `Generate` as a pure function returning a `Result`,
  and `GeneratePassword` as a method with the page's loop. Randomness is a
  parameter: `draws` is the sequence of indices that
  `Math.floor(Math.random() * charset.length)` would produce, in order.
  `DrawsFit` requires each of the first `len` draws to be an in-bounds index,
  but only when the charset is non-empty. The error path draws nothing.
- `Page` (`page.dfy`): the part of the component state the generator reads
  and writes (password, length, flags, copied), one regenerate click
  (`Regenerate`), the initial state, and the mount effect (`Mount`).
- `Wrappers` (`wrappers.dfy`): `Option` and `Result`.

Three facts about the code shape the model:

- The symbol literal has 26 characters, so the full charset has
  26 + 26 + 10 + 26 = 88 characters (`Page.InitialCharsetIsFull`).
- The page reports the empty case by writing "Please select at least one
  option" into the password state and leaving `copied` alone.
  `Generator.Generate` returns `Failure(NoClassSelected)`, and
  `Page.Regenerate` writes that text, as the page does.
- The draws come from `Math.random()`. The model takes them as a parameter.

## Model

| member | source | states |
|---|---|---|
| CharGroups.GroupSizes | app/page.tsx:34-37 | The groups have 26, 26, 10 and 26 characters |
| CharGroups.GroupMembership | app/page.tsx:34-37 | A character is in a group exactly when the independent classification puts it in that group, so the four groups are pairwise disjoint |
| Charset.Build | app/page.tsx:33-39 | The charset length is 26·upper + 26·lower + 10·digits + 26·symbols, and the charset is empty exactly when no flag is set |
| Charset.BuildLayout | app/page.tsx:33-37 | Each selected group appears verbatim at the offset equal to the total size of the selected groups before it (upper, lower, digits, symbols) |
| Charset.BuildMembership | app/page.tsx:33-37 | A character is in the charset if and only if it belongs to a selected group; nothing from an unselected group or outside the groups |
| Charset.BuildOrdered | app/page.tsx:33-37 | For every flag combination, the charset's characters are grouped by class: all uppercase, then lowercase, then digits, then symbols |
| Generator.Sample | app/page.tsx:44-48 | One character per draw: the result has as many characters as there are draws, and character i is charset[draw i] |
| Generator.Generate | app/page.tsx:32-48 | Fails exactly when no flag is set; otherwise yields a string of exactly the requested length whose i-th character is charset[draws[i]], taking the draws in order |
| Generator.GeneratePassword | app/page.tsx:44-48 | The loop that appends one character per iteration meets the same contract as Generate and returns the same result |
| Generator.GenerateMembership | app/page.tsx:45-47 | Every character of a successful result belongs to a selected group |
| Generator.NoSelectionIgnoresInputs | app/page.tsx:39-42 | With no flag set, the outcome is the no-option error for every length and every draw sequence |
| Generator.GenerateExtends | app/page.tsx:44-48 | Asking for one more character appends exactly charset[next draw] and keeps the earlier characters, so nothing is added, removed or reordered |
| Generator.NoCompositionGuarantee | app/page.tsx:44-49 | With all groups selected, all-zero draws give a password made only of 'A', so no group is guaranteed to appear |
| Page.Regenerate | app/page.tsx:39-50 | On success the password becomes the generated string of the set length and copied becomes false; on error the password becomes the sentinel and copied is unchanged; length and flags never change |
| Page.InitialCharsetIsFull | app/page.tsx:65 | The hand-written mount charset equals the assembled charset with all four flags set, and has 88 characters |
| Page.InitialPassword | app/page.tsx:65-70 | The mount password has exactly 16 characters, and character i is the mount charset at draw i |
| Page.InitialPasswordMembership | app/page.tsx:65-70 | Every character of the mount password belongs to one of the four groups |
| Page.Mount | app/page.tsx:62-72 | Mounting writes only a 16-character password drawn from the mount charset; length, flags and copied keep their initial values |
| Page.MountIsRegenerate | app/page.tsx:32-72 | Starting from the initial state of lines 23-29 (length 16, all flags set), the mount block of lines 62-72 gives the same state as one run of generatePassword (lines 32-51) with the same draws |
| Page.SentinelNeverGenerated | app/page.tsx:54 | No generated password equals the sentinel text, because the sentinel has a space and no group contains one; the copy guard's comparison with the sentinel never rejects a real password |

## Left out

- `generateStars` is left out. It only places background decoration, using floating-point `Math.random()` arithmetic.
- The float-to-index step `Math.floor(Math.random() * charset.length)` is not modelled. Each draw is taken as a given natural number, required to be in bounds.
- Uniformity, independence and cryptographic quality of the draws are left out. A deterministic model cannot state them.
- `copyToClipboard`, the clipboard API and the 2-second `setTimeout` reset are left out, because they are browser I/O and timers. Only the fact the guard relies on is proved (`Page.SentinelNeverGenerated`).
- React hooks, rendering and the widgets are left out. Only the state fields that the generator reads or writes are modelled.
- The slider bounds 4 to 64 are left out. The generator does not enforce them, so the model accepts any natural length.
- Page.Regenerate: the slider stores the length as a one-element array `length`, and the code reads `length[0]`. The model keeps only that one number.
