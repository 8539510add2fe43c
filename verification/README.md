# Word Scramble — a Dafny model of the game core

Word Scramble is a single-screen word game. The screen title shows a puzzle word
picked at random from a bundled word list. The player submits words made from its
letters. A submission is lower-cased and then checked in a fixed order:

1. **possible**: it can be spelt from the lower-cased puzzle word, each letter used
   at most as often as it occurs there;
2. **original**: it has not been accepted before in this round;
3. **real**: it is at least three UTF-16 code units long, it differs from the title,
   and the dictionary knows it.

The first check that fails is reported. An accepted word goes to the front of the
list of used words. At launch, `startGame` picks a title and empties that list; it
runs only from `viewDidLoad`. On screen the player can only submit an answer or
press "Refresh", which picks a new title and keeps the list.

The model replaces the view controller's fields with an immutable `Game.State`
holding `title: Option<string>`, `usedWords` and `allWords`. Three parts of the
app become parameters:

- the system spell checker is a dictionary function `known: string -> bool`;
- the random choice of `randomElement()` is an index `pick`;
- the contents of the `start.txt` resource are an `Option<string>`, with `None` when
  the file is missing or cannot be read.

Modules:

- `Wrappers`: `Option`.
- `Seqs`: `firstIndex(of:)`, `remove(at:)`, and duplicate-freedom.
- `Text`: `lowercased()` and `utf16.count`.
- `Lines`: `components(separatedBy:)` as `Split`, with `Join` as its inverse.
- `Validator`: `isPossible`, `isOriginal` and `isReal`. `isPossible` has two forms:
  a recursive function that mirrors the letter-deletion loop, and an imperative
  method that runs that loop.
- `Game`: the state, `submit`, `startGame`, `refresh`, the word-list loading of
  `viewDidLoad`, and `Run`, which plays any sequence of submissions, refreshes and
  new rounds.

Three behaviours of the code that a reader might not expect are kept as written:

- **The fallback list is used only when the resource is missing.**
  `components(separatedBy:)` never returns an empty array. So `allWords.isEmpty`
  can hold only when the resource was not read at all. An empty `start.txt` gives
  the word list `[""]` and a blank title. A trailing newline adds a blank word that
  can be drawn as the title. Under a blank title every non-empty answer is "not
  possible". See `Game.FallbackOnlyWhenMissing`, `Game.EmptyResourceGivesBlankWord`
  and `Game.TrailingNewlineGivesBlankWord`.
- **`isReal` compares the answer with the title as written, not lower-cased.**
  Under a capitalised title, the puzzle word itself can be accepted. See
  `Game.CapitalisedTitleAcceptsItself`.
- **A missing title gives no message.** When there is no title, `submit` rejects the
  answer without an alert. The model reports this as the outcome `NoPuzzle`, separate
  from `NotPossible(puzzle)`, which carries the lower-cased title that the alert shows.

## Model

| member | source | states |
|---|---|---|
| `Seqs.FirstIndex` | WordScramble/ViewController.swift:76 | the position found holds the letter and no earlier position does; `None` exactly when the letter is absent |
| `Seqs.FindFirst` | WordScramble/ViewController.swift:76 | the linear search that `firstIndex(of:)` performs, with the same first-occurrence contract, proved through its loop invariant |
| `Seqs.FirstIndexUnique` | WordScramble/ViewController.swift:76 | any position that holds the letter with no earlier occurrence is the one `firstIndex(of:)` returns |
| `Seqs.RemoveAt` | WordScramble/ViewController.swift:77 | removing one position shortens the working copy by one and takes exactly that letter out of its multiset |
| `Text.LowerChar` | WordScramble/ViewController.swift:105 | the result is never an upper-case letter; other characters are unchanged; A–Z move by 32 code points |
| `Text.Lower` | WordScramble/ViewController.swift:105 | `lowercased()` folds every character in place (each position holds the folded character of the same position), so the length is kept, no upper-case letter remains, and an already lower-case string is unchanged |
| `Text.LowerIdempotent` | WordScramble/ViewController.swift:105 | lower-casing an already lower-cased answer changes nothing |
| `Text.Utf16Length` | WordScramble/ViewController.swift:91-94 | `utf16.count` lies between the number of characters and twice that number, and is 0 only for the empty string |
| `Text.EncodeChar` | WordScramble/ViewController.swift:91 | a scalar value below U+10000 encodes to itself as one code unit; above it, to a high surrogate then a low surrogate whose combined value gives back the scalar |
| `Text.Utf16LengthCountsCodeUnits` | WordScramble/ViewController.swift:91-94 | the length used by the three-unit rule is exactly the number of units in the UTF-16 encoding |
| `Text.Utf16LengthOfBmp` | WordScramble/ViewController.swift:94 | for text inside the Basic Multilingual Plane, the UTF-16 length equals the number of characters |
| `Lines.Split` | WordScramble/ViewController.swift:25 | splitting always yields at least one piece, and no piece contains the separator |
| `Lines.JoinSplit` | WordScramble/ViewController.swift:25 | joining the lines of the resource with newlines gives back the resource text |
| `Lines.SplitJoin` | WordScramble/ViewController.swift:25 | splitting a join of newline-free pieces gives back the same pieces |
| `Lines.SplitEmpty` | WordScramble/ViewController.swift:25 | an empty text splits into one empty piece, not into zero pieces |
| `Validator.Consume` | WordScramble/ViewController.swift:75-81 | the letter-deletion loop over the working copy: an empty candidate always succeeds, and the loop fails as soon as the current letter is missing from the copy |
| `Validator.ConsumeIsSubMultiset` | WordScramble/ViewController.swift:75-81 | the letter-deletion loop succeeds exactly when the candidate's letters are a sub-multiset of the working copy's letters |
| `Validator.AddSameKeepsSubMultiset` | WordScramble/ViewController.swift:76-77 | consuming the same letter from both sides keeps or breaks multiset inclusion in the same way, which is the step of the deletion loop |
| `Validator.IsPossible` | WordScramble/ViewController.swift:72-83 | with no title the result is false; otherwise it is true exactly when the candidate's letter multiset is inside the lower-cased title's letter multiset |
| `Validator.CheckPossible` | WordScramble/ViewController.swift:72-83 | the loop over a mutable copy of the lower-cased title returns the same multiset-inclusion verdict. The loop invariant is that the copy plus the letters consumed so far equals the title's multiset |
| `Validator.LongerNeverPossible` | WordScramble/ViewController.swift:75-81 | a candidate with more letters than the title is never possible |
| `Validator.SubMultisetSize` | WordScramble/ViewController.swift:75-81 | a sub-multiset is no larger than the multiset that contains it |
| `Validator.PossibleExamples` | WordScramble/ViewController.swift:72-83 | "act" can be spelt from "cat"; "cats" cannot |
| `Validator.IsOriginal` | WordScramble/ViewController.swift:85-87 | a candidate is original exactly when no used word equals it |
| `Validator.IsReal` | WordScramble/ViewController.swift:89-102 | fewer than three UTF-16 units rejects whatever the dictionary says; equality with the title as written rejects; otherwise the dictionary decides |
| `Validator.ShortWordNeverReal` | WordScramble/ViewController.swift:94-96 | a one-character candidate, or a two-character candidate inside the Basic Multilingual Plane, is never real, for every dictionary |
| `Game.LoadLines` | WordScramble/ViewController.swift:23-27 | a readable resource yields a non-empty list of newline-free lines that joins back to its text, so by `Lines.SplitJoin` exactly its split; an unreadable one yields nothing |
| `Game.LoadWords` | WordScramble/ViewController.swift:23-31 | the word list is never empty; a missing resource gives `["silkworm"]`; a readable one gives its newline-free lines, which join back to the resource text |
| `Game.FallbackOnlyWhenMissing` | WordScramble/ViewController.swift:24-31 | a readable resource is always split into lines as it is; the fallback branch is never reached for it |
| `Game.EmptyResourceGivesBlankWord` | WordScramble/ViewController.swift:25-31 | an empty resource gives the word list `[""]`, not the fallback |
| `Game.TrailingNewlineGivesBlankWord` | WordScramble/ViewController.swift:25-31 | a resource made of one line followed by a newline gives that line and then a blank word, not the line alone |
| `Game.RandomElement` | WordScramble/ViewController.swift:38 | `randomElement()` is `nil` exactly for an empty list and is otherwise a member of the list |
| `Game.StartGame` | WordScramble/ViewController.swift:36-41 | the used words become empty, the word list is unchanged, and the new title is an element of the word list (`nil` only when the list is empty) |
| `Game.Refresh` | WordScramble/ViewController.swift:43-47 | the title becomes an element of the word list; the used words and the word list are untouched |
| `Game.ViewDidLoad` | WordScramble/ViewController.swift:23-33 | after loading, the word list is the loaded list, no words are used, and the title is an element of the word list |
| `Game.Submit` | WordScramble/ViewController.swift:104-129 | acceptance holds exactly when all three checks pass (stated on multisets, membership, length, title and dictionary). The first failing check in the order possible, original, real is the one reported. A rejection leaves the state unchanged. An acceptance prepends the lower-cased answer and changes nothing else |
| `Game.ResubmitIsNotOriginal` | WordScramble/ViewController.swift:113-123 | after an answer is accepted, resubmitting it in any letter case is reported as not original |
| `Game.Step` | WordScramble/ViewController.swift:36-66 | one action: a submission keeps the title and either keeps the used words or prepends the lower-cased answer; a new round empties them; a refresh keeps them; both draw the title from the unchanged word list |
| `Game.Run` | WordScramble/ViewController.swift:19-21 | the state after a sequence of actions: the word list never changes, each action adds at most one used word, and an empty word list never yields a title |
| `Game.StepKeepsNoDuplicates` | WordScramble/ViewController.swift:113-123 | no single submit, start or refresh introduces a duplicate into the used words |
| `Game.RunKeepsNoDuplicates` | WordScramble/ViewController.swift:113-123 | from duplicate-free used words, every sequence of submits, starts and refreshes keeps them duplicate-free |
| `Game.AcceptKeepsJustified` | WordScramble/ViewController.swift:113-123 | an accepted answer is lower-case and possible and real under the current title, and the used words stay duplicate-free |
| `Game.StepKeepsJustified` | WordScramble/ViewController.swift:104-123 | after one action, each used word is still lower-case and was possible and real against the title shown when it was accepted |
| `Game.RunKeepsJustified` | WordScramble/ViewController.swift:36-129 | along every sequence of actions, each used word stays justified by the title under which it was accepted, including across refreshes that change the title |
| `Game.LoadedGameJustified` | WordScramble/ViewController.swift:33-41 | the game that `viewDidLoad` starts satisfies that invariant, with no used words |
| `Game.SilkwormScenario` | WordScramble/ViewController.swift:104-123 | with puzzle word "silkworm": "silk" is accepted and becomes the only used word; "silk" again is not original; "silkworm" is not real |
| `Game.CapitalisedTitleAcceptsItself` | WordScramble/ViewController.swift:97-99 | under the title "Silkworm", the answer "silkworm" is accepted when the dictionary knows it, because the title is compared without lower-casing |

## Left out

- Game.Run: allows a new round (`StartNewGame`) anywhere in a sequence, whereas the app starts a round only once, from `viewDidLoad`; the invariants proved over `Run` therefore cover more sequences than the app can produce.
- The UIKit presentation: bar buttons, the alert that prompts for an answer, table-view data source, `showErrorMessage` alerts, `reloadData` and `insertRows`. The model keeps only which outcome a submission reports. For "not possible" it also keeps the lower-cased title that the alert shows.
- Reading `start.txt` from the app bundle is file I/O. Its result is the `Option<string>` parameter of `Game.LoadWords`.
- `UITextChecker.rangeOfMisspelledWord` is a platform service. It becomes the `known` parameter, a yes/no verdict on the whole word in English. The source calls the checker before its length test. The model does not, because the oracle has no effects.
- The randomness of `randomElement()` becomes the `pick` index chosen by the caller.
- The dead alternative of `submit` kept in comments after the class.
- Text.Lower: folds only the ASCII letters A–Z, whereas Swift's `lowercased()` applies full Unicode case mapping.
- Validator.IsPossible: a Swift `String` is iterated and searched by grapheme cluster (`Character`), with canonical equivalence. The model works on Unicode scalar values with exact equality. The same holds for the string equality in `Validator.IsOriginal` and `Validator.IsReal`.
- Lines.Split: splits on the scalar value U+000A. Foundation splits on UTF-16 code units, which gives the same pieces for a one-unit separator.
