# Word-frequency accumulator of `__main__.py`

This project models the only logic the repository's script contains: a small
word-frequency accumulator. `convertPromptToData` lowercases a prompt, splits
it on whitespace and counts each token into a dictionary. `saveLearntData`
adds such a dictionary, key by key, into the module-level dictionary `data`.
`submitQuery` ignores the empty query and otherwise converts and saves it.
`NeuralNetwork` is a one-field holder whose `changeWeight` overwrites its
`weights`.

The Dafny sources:

- `text.dfy` (module `Text`): Python's whitespace set, lowercasing,
  `str.split()` as `Split`, `Join` (a right inverse of `Split` on word lists), and `Tokens(p) = Split(Lower(p))`.
- `counts.dfy` (module `Counts`): count dictionaries (`map<string, int>`), the
  reference occurrence count `Count`, the bag of words `Bag`, the sum of all
  counts `Total`, and the key-by-key addition `Merge`.
- `program.dfy` (module `Program`): `ConvertPromptToData` as a loop proved
  equal to `Bag(Tokens(prompt))`. The global `data` becomes the class
  `LearntData`, with `SaveLearntData` and `SubmitQuery` as its methods. The
  class `NeuralNetwork<W>` holds `weights`. `RunScript` models the script's
  top level.

Tokens are separated by whitespace only, and punctuation stays part of a token.

## Model

| member | source | states |
|---|---|---|
| `Text.IsSpace` | __main__.py:22 | below code point 128, the whitespace `split()` separates on is exactly space, tab, line feed, carriage return, vertical tab, form feed and the four separators `\x1c`..`\x1f`; no ASCII letter or digit is whitespace |
| `Text.Lower` | __main__.py:22 | `lower()` keeps the length, leaves no upper-case letter, turns each of `A`..`Z` into its lower-case letter and changes nothing else |
| `Text.LowerChar` | __main__.py:22 | lowercasing maps `A`..`Z` to `a`..`z`, never yields an upper-case letter, and keeps every other character |
| `Text.Split` | __main__.py:22 | every token of `split()` is non-empty and free of whitespace, and each of its characters comes from the input |
| `Text.SplitAtSpace` | __main__.py:22 | splitting at any whitespace character splits the two sides independently; with `SplitEmptyIff` and `SplitWordThenRest` this fixes the tokens as all maximal whitespace-free runs, in order |
| `Text.SplitWordThenRest` | __main__.py:22 | a single word splits into itself, and a word followed by a space and more text splits into that word followed by the split of the rest |
| `Text.SplitJoin` | __main__.py:22 | splitting words joined by single spaces gives back exactly those words, so tokens come out in order and unaltered |
| `Text.SplitEmptyIff` | __main__.py:22 | `split()` yields no token if and only if the string is all whitespace |
| `Text.LowerIdempotent` | __main__.py:22 | lowercasing an already lowercased string changes nothing |
| `Text.TokensIgnoreCase` | __main__.py:22 | the tokens of `p.lower()` equal the tokens of `p` |
| `Text.Tokens` | __main__.py:22 | every token of `prompt.lower().split()` is non-empty, has no whitespace and has no upper-case letter |
| `Text.TokensEmptyIff` | __main__.py:22 | a prompt has no tokens if and only if it is empty or all whitespace |
| `Counts.CountAppend` | __main__.py:24-25 | occurrences in a concatenation are the sum of the occurrences in the parts |
| `Counts.CountPositiveIff` | __main__.py:24-25 | a word has a positive count if and only if it occurs in the token list |
| `Counts.CountIsMultiplicity` | __main__.py:24-25 | the occurrence count equals the word's multiplicity in the multiset of tokens |
| `Counts.Bag` | __main__.py:23-26 | the keys of the counted dictionary are exactly the distinct tokens, and every value is at least 1 |
| `Counts.BagIsMultiset` | __main__.py:23-26 | for every word, present or not, `promptData.get(w, 0)` equals its number of occurrences among the tokens |
| `Counts.BagSnoc` | __main__.py:24-25 | counting one more token adds 1 to that token's entry (starting from 0) and leaves every other entry alone |
| `Counts.TotalRemove` | __main__.py:24-25 | the sum of all counts can be taken starting from any key |
| `Counts.TotalUpdate` | __main__.py:25 | overwriting one entry changes the sum by the new value minus the old one |
| `Counts.TotalBag` | __main__.py:22-25 | the counts of the dictionary add up to the number of tokens |
| `Counts.BagEmpty` | __main__.py:23 | a prompt without tokens converts to the empty dictionary |
| `Counts.Merge` | __main__.py:18-19 | each key of `newData` ends at `data.get(k, 0) + newData[k]`, every other key keeps its value, and no other key appears |
| `Counts.MergeEmpty` | __main__.py:18-19 | merging an empty dictionary leaves `data` unchanged |
| `Counts.MergeIntoEmpty` | __main__.py:4 | merging into the initial empty `data` copies the merged dictionary |
| `Counts.MergeUnchangedIff` | __main__.py:18-19 | merging leaves `data` unchanged if and only if every merged key is already present and adds 0 |
| `Counts.MergeBag` | __main__.py:18-25 | merging the counts of one token list into those of another gives the counts of the concatenated list |
| `Counts.MergeBagCounts` | __main__.py:18-25 | merging a bag of words raises each word's count by its number of occurrences, and only those words become new keys |
| `Counts.MergeReorder` | __main__.py:18-19 | two merges into `data` give the same result in either order |
| `Counts.MergeBagPositive` | __main__.py:18-25 | merging a prompt's counts keeps every count in `data` at least 1 if it was |
| `Counts.MergeStep` | __main__.py:18-19 | merging a dictionary equals merging it without one key, then updating that key as the loop body does |
| `Counts.TotalMerge` | __main__.py:18-19 | after a merge, the sum of `data` is the old sum plus the sum of `newData` |
| `Program.ConvertPromptToData` | __main__.py:21-26 | the loop builds exactly the bag of words of the lowercased, split prompt |
| `Program.PromptDataCounts` | __main__.py:21-26 | the result's keys are the distinct tokens, each value is its number of occurrences (at least 1), the empty string is never a key, and the values sum to the token count |
| `Program.PromptDataIgnoresCase` | __main__.py:22 | a prompt and its lowercase form convert to the same dictionary |
| `Program.Submit` | __main__.py:29-36 | after a query, `data`'s keys are the old keys plus the query's tokens, and each word's count rises by its number of occurrences among the tokens; for the empty query nothing changes |
| `Program.SubmitBag` | __main__.py:29-36 | submitting a query to the bag of some words gives the bag of those words followed by the query's tokens |
| `Program.SubmitFromEmpty` | __main__.py:4 | one query submitted to the initial empty `data` leaves exactly that query's bag of words |
| `Program.SubmitUnchangedIff` | __main__.py:29-36 | a query leaves `data` unchanged if and only if it is empty or all whitespace |
| `Program.SubmitTotal` | __main__.py:29-36 | a query adds exactly its number of tokens to the sum of all counts |
| `Program.SubmitAllIsBag` | __main__.py:29-36 | starting from the counts of some tokens, any run of queries yields the counts of those tokens followed by all queries' tokens |
| `Program.DataIsBagOfSubmitted` | __main__.py:4 | starting from the empty `data`, `data` is always the bag of words of all submitted queries, and its sum is their total token count |
| `Program.NeuralNetwork.constructor` | __main__.py:8-9 | a new network holds the given weight |
| `Program.NeuralNetwork.ChangeWeight` | __main__.py:11-12 | `weights` becomes the new weight and nothing else changes |
| `Program.LearntData.constructor` | __main__.py:4 | `data` starts empty |
| `Program.LearntData.SaveLearntData` | __main__.py:16-19 | `data` becomes the key-by-key sum of the old `data` and `newData`; keys outside `newData` are untouched |
| `Program.LearntData.SubmitQuery` | __main__.py:29-36 | the empty query leaves `data` unchanged; any other query merges `convertPromptToData(query)` into `data` |
| `Program.RunScript` | __main__.py:38-40 | after `changeWeight` and one query, the network holds the new weight and `data` is the bag of words of the query |

## Left out

- Console I/O: `input("> ")` becomes the `input` parameter of `RunScript`. Every `print` call is left out (lines 31, 33, 36, 41), because printing has no effect on state.
- `import numpy`, `import string` and the unused `chars` set (lines 1-2, 5): no logic uses them.
- The float weights 0.23 and 0.45 (lines 14, 38): `NeuralNetwork` is generic in its weight type. The script's concrete weights are the parameters of `RunScript`.
- Text.LowerChar: only ASCII `A`..`Z` are lowercased. Python's `str.lower()` also maps non-ASCII letters and can change a string's length (for example `İ`). The whitespace set, by contrast, is Python's full `str.isspace` set.
- Program.LearntData.SaveLearntData: Python visits `newData` in insertion order. The model visits keys in an arbitrary order. The keys are distinct, so the final `data` is the same (`Counts.MergeStep`).
- Count values are mathematical integers. Python's `saveLearntData` would add any values that support `+`; the script only ever passes integer counts.
- Aliasing `saveLearntData(data)`: the dictionary is passed by value in the model. In Python each key is read before it is written, so this call also doubles every count.
