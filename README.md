# Animal name scraper, modelled in Dafny

`AnimalsScrapper` reads the table of animal names on a Wikipedia page and
builds three dictionaries:

- collateral adjective → the animal names filed under it, plus HTML image tags when pictures are on;
- animal name → the animal it refers to (its synonym);
- animal name → the link of its picture.

The model covers the part of the scraper that turns table rows into these dictionaries:

- `results.dfy`: `Option` and `Result`.
- `text.dfy`: the character classes of the regular expressions, and the
  operations of Python's `str` the parser relies on:
  - a greedy run of a character class;
  - `find`;
  - `rstrip` (on strings of letters and spaces);
  - `split("\n")` with its inverse `"\n".join`.
- `name_parser.dfy`: `_parse_animal_name`.
  - The match of `([A-Za-z ]+)([(A-Za-z)]*)-* See ([A-Za-z ]+)` is defined
    declaratively as the first feasible assignment of group boundaries in the
    order a backtracking matcher tries them.
  - It is computed by a search over group-1 ends.
  - It is proved to be that first feasible match, and to be absent exactly
    when no assignment is feasible.
  - The truncation at "Also see", and the fallback to the leading
    letter/space run with `IndexError` when there is none, follow the code.
- `adjectives.dfy`: the adjective cell.
  - It is split at newlines, and only the lines matching `^[A-Za-z]+$` are kept.
  - The `$`, which also matches before a final newline, is modelled exactly.
  - It is then proved harmless on lines cut by `split`.
- `animals_scrapper.dfy`:
  - The row walk of `_generate_animals`, as the consumer of the generator sees
    it: the records yielded up to the first exception, and that exception.
  - The class `AnimalsScrapper`, whose three map fields `run` updates in place.
  - `AddRecord` is the body of the loop in `run`, with the loops over the
    adjectives.
  - `Run` is the loop over the rows.
  - Both are proved against folds over the yielded records.
  - Lemmas about those folds state what the dictionaries hold.

Notable behaviour of the code, which the model keeps:

- In the synonym branch, group 1 is returned untrimmed: "Cattle - See Cow" gives the name "Cattle ", with its trailing space.
- A qualifier separated from the dash by a space defeats the pattern, so "Whale (Cetacean) - See Cetacean" gives ("Whale", "") and no synonym.
- The synonym pattern is matched against the original text. When it matches, the "Also see" truncation has no effect.
- A name is appended to an adjective's bucket once per occurrence of that adjective in its row.
- Fetching the page has no retry loop, although the docstring of `_get_raw_html_content` (line 171) promises one. The retry constants at lines 7-8 are never used.
- With pictures on, a link lookup that finds no infobox or no image returns "" (lines 159-165). So the doc comment at line 100, by which the link is non-empty exactly when pictures are on, holds only in one direction: with pictures off the link is "" (`GeneratedRecords`), and the converse is false (`EmptyLinkWithPictures`).

## Model

| member | source | states |
|---|---|---|
| Text.RunEnd | AnimalsScrapper.py:135 | a greedy character class takes the longest run from its start: every character in it belongs to the class, and the next one does not |
| Text.RunEndIs | AnimalsScrapper.py:135 | any run of the class that is followed by a character outside the class, or by the end, is the greedy run |
| Text.Find | AnimalsScrapper.py:134 | `find` returns the first index where the pattern occurs; it returns -1 exactly when the pattern occurs nowhere |
| Text.OccursAt | AnimalsScrapper.py:134 | the pattern occurs at a given index of the text |
| Text.FindFrom | AnimalsScrapper.py:134 | the search behind `find`: the first occurrence at or after a start index, or -1 when there is none from there |
| Text.RStripSpaces | AnimalsScrapper.py:145 | `rstrip` gives a prefix of the text; only spaces are removed, and the result does not end in a space |
| Text.SplitLines | AnimalsScrapper.py:114 | `split("\n")` gives at least one piece, no piece holds a newline, and joining the pieces with newlines gives the text back |
| Text.SplitJoin | AnimalsScrapper.py:114 | splitting the join of newline-free pieces returns those pieces |
| NameParser.Feasible | AnimalsScrapper.py:135 | the pattern matches a prefix of the text with these group boundaries: group 1 is a non-empty run of letters and spaces, group 2 is letters and parentheses, then dashes, then " See " and at least one letter or space |
| NameParser.TriedBefore | AnimalsScrapper.py:135 | the order in which greedy backtracking tries boundaries: a longer group 1 first, then a longer group 2, then more dashes |
| NameParser.CandidateAt | AnimalsScrapper.py:135 | the assignment with group 1 ending at a given index, where group 2 and the dashes take their longest runs |
| NameParser.SearchDown | AnimalsScrapper.py:135 | the backtracking over group 1: it tries group-1 ends from the given one down to 1 and returns the first candidate that " See " follows |
| NameParser.SearchDownFeasible | AnimalsScrapper.py:135 | what the search returns is a match, with group 1 ending no later than where the search began |
| NameParser.FeasibleIsCandidate | AnimalsScrapper.py:135 | in any match, group 1 lies inside the leading name run; group 2 and the dashes are then forced to their longest runs |
| NameParser.SearchDownLargest | AnimalsScrapper.py:135 | backtracking from the longest group 1 finds a match whenever one exists at a shorter group 1, and its group 1 is at least as long |
| NameParser.FeasibleOrdered | AnimalsScrapper.py:135 | two different matches are ordered by the length of group 1 |
| NameParser.CandidateFeasible | AnimalsScrapper.py:135 | a group-1 end inside the name run gives a match exactly when " See " and a name character follow the forced group 2 and dashes |
| NameParser.MatchSee | AnimalsScrapper.py:135 | `re.match` returns a match that is feasible and comes first in the matcher's order; there is no match exactly when no assignment of groups is feasible |
| NameParser.Truncated | AnimalsScrapper.py:134-138 | the name is cut before the first "Also see": the result is a prefix without "Also see", and it is shorter only when "Also see" starts right after it |
| NameParser.TruncatedAtA | AnimalsScrapper.py:136-138 | a truncated name is cut at a capital A |
| NameParser.NoCapitalS | AnimalsScrapper.py:135 | a text without a capital S never matches the synonym pattern |
| NameParser.ParseAnimalName | AnimalsScrapper.py:124-146 | parsing fails (IndexError) exactly when there is no match and the truncated text starts with no letter or space; the synonym is non-empty exactly when the pattern matched; name and synonym are letters and spaces |
| NameParser.MatchedNameAndSynonym | AnimalsScrapper.py:139-142 | on a match, the untrimmed group 1 is a non-empty prefix of the raw text; it is followed by qualifier characters, dashes and " See ", then by the synonym, which is the whole letter/space run there |
| NameParser.UnmatchedName | AnimalsScrapper.py:143-145 | without a match, the name is the leading letter/space run of the truncated text less its trailing spaces, and the synonym is empty |
| NameParser.TigerExample | AnimalsScrapper.py:143-145 | "Tiger2" parses to ("Tiger", "") |
| NameParser.AlsoSeeExample | AnimalsScrapper.py:134-145 | "Lion Also seeFeline" parses to ("Lion", "") |
| NameParser.SeeExample | AnimalsScrapper.py:135-142 | "Cattle - See Cow" parses to ("Cattle ", "Cow") |
| NameParser.QualifiedSeeExample | AnimalsScrapper.py:135-145 | "Whale (Cetacean) - See Cetacean" does not match the pattern and parses to ("Whale", "") |
| NameParser.LeadingAlsoSeeFails | AnimalsScrapper.py:144-145 | "Also see Cat" leaves nothing before the marker, so parsing raises |
| Adjectives.MatchesWordPattern | AnimalsScrapper.py:116 | `re.match('^[A-Za-z]+$', t)`: the line is a word, or a word followed by one final newline, which `$` also accepts |
| Adjectives.DollarHarmless | AnimalsScrapper.py:116 | on a line without newlines, `^[A-Za-z]+$` matches exactly the non-empty runs of letters |
| Adjectives.KeepWords | AnimalsScrapper.py:116 | a line is kept exactly when it is one of the lines and matches the pattern |
| Adjectives.KeepWordsSubsequence | AnimalsScrapper.py:116 | the kept lines keep their order: they form a subsequence of the lines |
| Adjectives.KeepWordsCounts | AnimalsScrapper.py:116 | a matching line is kept as often as it occurs; a line that does not match is never kept |
| Adjectives.KeepWordsAppend | AnimalsScrapper.py:116 | filtering a concatenation concatenates the filtered parts |
| Adjectives.KeepWordsIdempotent | AnimalsScrapper.py:116 | filtering twice is filtering once |
| Adjectives.KeepWordsExample | AnimalsScrapper.py:116 | of "leonine", "123", "?", "feline" and "-", only "leonine" and "feline" are kept |
| Adjectives.SingleWordCell | AnimalsScrapper.py:114-116 | a cell holding one word yields exactly that word |
| Adjectives.CellAdjectives | AnimalsScrapper.py:114-116 | the adjectives are words; they are exactly the lines of the cell that are words, each as often as it occurs, in cell order |
| Scrapper.ParseRow | AnimalsScrapper.py:108-122 | a row is skipped exactly when it has no cells; a row of one to five cells raises |
| Scrapper.RowFields | AnimalsScrapper.py:109-122 | a row raises exactly when its name cell fails to parse, when it has fewer than six cells, or when the link lookup fails with pictures on; a yielded record takes its name and synonym from cell 0 and its adjectives from cell 5; its link comes from the lookup, or is "" with pictures off |
| Scrapper.EmptyLinkWithPictures | AnimalsScrapper.py:100-122 | with pictures on, a lookup that returns "" yields a record with the empty link: "Tiger2" with a "feline" adjective cell gives ("Tiger", ["feline"], "", "") |
| Scrapper.Collect | AnimalsScrapper.py:108-122 | what a consumer of the generator sees: the records yielded up to the first exception, and that exception; at most one record per outcome |
| Scrapper.Outcomes | AnimalsScrapper.py:108-122 | the outcome of the loop body for each row, in row order |
| Scrapper.GenerateAnimals | AnimalsScrapper.py:93-122 | the generator yields at most one record per row |
| Scrapper.GeneratedRecords | AnimalsScrapper.py:100-122 | every yielded name is letters and spaces, every adjective is a word, and with pictures off every link is "" |
| Scrapper.CollectAppend | AnimalsScrapper.py:108-122 | consuming two stretches of row outcomes: an exception in the first ends everything; otherwise the records concatenate |
| Scrapper.GenerateAppend | AnimalsScrapper.py:108-122 | the generator is lazy: the rows before a failing row are all yielded, and no row after it matters |
| Scrapper.GenerateStep | AnimalsScrapper.py:108-122 | one more row: a skipped row adds nothing, a yielded record is appended, and an exception ends the walk with the records seen so far |
| Scrapper.GenerateEmptyRows | AnimalsScrapper.py:108-110 | rows without cells yield nothing and raise nothing |
| Scrapper.ImageTag | AnimalsScrapper.py:57-58 | the tag `<img src="PATH" alt="NAME">`, where PATH is the download directory joined with NAME.png |
| Scrapper.AppendEach | AnimalsScrapper.py:49-53 | for each adjective in turn, the value is appended to its bucket, which is created with the value when it is missing |
| Scrapper.AddToIndex | AnimalsScrapper.py:49-59 | the adjective index after one record: the name under each adjective, then, with pictures on, the image tag under each adjective |
| Scrapper.AddSynonym | AnimalsScrapper.py:46-48 | a record with a non-empty synonym writes it under its name; any other record leaves the map as it was |
| Scrapper.AddLink | AnimalsScrapper.py:54-55 | with pictures on, the record's link is written under its name; with pictures off the map is unchanged |
| Scrapper.IndexAnimals | AnimalsScrapper.py:45-59 | the adjective index after the loop in `run`: the records folded in with `AddToIndex`, in the order they were yielded |
| Scrapper.IndexSynonyms | AnimalsScrapper.py:45-48 | the synonym map after the loop in `run`: the records folded in with `AddSynonym`, in order |
| Scrapper.IndexLinks | AnimalsScrapper.py:45-59 | the link map after the loop in `run`: the records folded in with `AddLink`, in order |
| Scrapper.AppendEachKeys | AnimalsScrapper.py:49-53 | appending for each adjective creates exactly the missing buckets |
| Scrapper.AppendEachBucket | AnimalsScrapper.py:49-53 | after appending a value for each adjective, a bucket holds its old content followed by the value, once per occurrence of its adjective |
| Scrapper.AddToIndexKeys | AnimalsScrapper.py:49-59 | one record adds buckets only for its own adjectives |
| Scrapper.AddToIndexBucket | AnimalsScrapper.py:49-59 | one record appends its contribution (names, then image tags) to the end of each bucket |
| Scrapper.OtherBucketsUnchanged | AnimalsScrapper.py:49-59 | the bucket of an adjective the record does not list is unchanged |
| Scrapper.NamesBeforeTags | AnimalsScrapper.py:49-59 | with pictures on, a listed adjective's bucket gets the name once per occurrence, then as many image tags |
| Scrapper.IndexHas | AnimalsScrapper.py:45-59 | after the records, an adjective has a bucket exactly when it had one before or some record lists it |
| Scrapper.IndexOneMore | AnimalsScrapper.py:45-59 | folding one more record into the three dictionaries is one pass of the loop body |
| Scrapper.IndexBucket | AnimalsScrapper.py:45-59 | each bucket is its old content followed by the contributions of the records in order |
| Scrapper.IndexEmptyContributions | AnimalsScrapper.py:49-53 | an adjective still without a bucket has received nothing from any record |
| Scrapper.IndexKeys | AnimalsScrapper.py:45-59 | from empty dictionaries, the keys of the index are exactly the adjectives of the records |
| Scrapper.ContributionsHoldName | AnimalsScrapper.py:49-53 | a record's name appears in its adjective's contributions at least once per occurrence of that adjective |
| Scrapper.NameFiledUnderAdjective | AnimalsScrapper.py:49-53 | every adjective of every record has a bucket, and that bucket holds the record's name |
| Scrapper.LastSynonymWins | AnimalsScrapper.py:46-48 | a name's synonym is that of the last record under the name that has one |
| Scrapper.SynonymUntouched | AnimalsScrapper.py:46-48 | records without a synonym leave the synonym map as it was |
| Scrapper.LinksUntouchedWithoutPictures | AnimalsScrapper.py:54-55 | with pictures off, the link map is never written |
| Scrapper.LastLinkWins | AnimalsScrapper.py:54-55 | with pictures on, every name has the link of its last record |
| Scrapper.LinksFrame | AnimalsScrapper.py:54-55 | a name that no record carries keeps its old link, or stays without one |
| Scrapper.AnimalsScrapper.constructor | AnimalsScrapper.py:13-23 | the three dictionaries start empty, and the settings are those given |
| Scrapper.AnimalsScrapper.AddRecord | AnimalsScrapper.py:45-59 | the loop body over one record updates the three dictionaries as the folds do, in place |
| Scrapper.AnimalsScrapper.Run | AnimalsScrapper.py:43-59 | after the loop, the dictionaries are the folds of the records the generator yielded, and the exception that stopped it (if any) is returned |
| Scrapper.AnimalsScrapper.GetAnimals | AnimalsScrapper.py:84-88 | returns the adjective index |
| Scrapper.AnimalsScrapper.GetSynonyms | AnimalsScrapper.py:90-91 | returns the synonym map |

## Left out

- `_get_raw_html_content` and the HTTP requests: network I/O. `Run` starts from the rows of the table, and a failed fetch is not modelled.
- BeautifulSoup, the choice of the third table and `get_text`: HTML parsing. Each row arrives as the texts of its `td` cells. The text of the adjective cell is the `get_text(strip=True, separator="\n")` result.
- `_get_animal_pic_download_link`: it fetches the animal's own page. It is the `LinkLookup` parameter, with `None` for any exception it raises.
- `GeneratedRecords` states the link property only in the direction "pictures off, so the link is empty". The converse in the doc comment at line 100 is false of the code, as `EmptyLinkWithPictures` shows.
- `LinkLookup` is a function of the row's cell texts. The real lookup reads the href of the anchor in cell 0 (line 154), which no cell text holds, and then goes to the network. So in the model two rows with equal texts always get the same link, or the same failure. Nothing proved relies on this.
- `_download_images`: network and file I/O.
- `os.path.join`: a parameter of `Settings`, left uninterpreted.
- Scrapper.AnimalsScrapper.constructor: the defaults `download_pics=False` and `download_path=''` of line 13 are not modelled. Dafny callers pass both.
- Logging and the logger set-up in `__init__` (lines 24-34) are left out. `target_url` is not modelled either, since fetching is out.
- Scrapper.IndexAnimals, Scrapper.IndexSynonyms, Scrapper.IndexLinks, Scrapper.AnimalsScrapper.Run, Scrapper.AnimalsScrapper.GetAnimals, Scrapper.AnimalsScrapper.GetSynonyms: the insertion order of dictionary keys is not modelled. A Dafny `map` has no order. In Python an adjective key keeps the place where it was created (line 53), and a name key the place where it was first written (lines 48 and 55). Callers that serialise the dictionaries see that order, and so does the loop in `_download_images` (line 71).
- Aliasing of the lists inside `_animals_dict`: buckets are values in a `map`. `get_animals` returns a copy of the map value, not a shared reference.
- `Text.RStripSpaces` strips only spaces, not all Python whitespace. The name parser strips text made of letters and spaces only, so this is exact where it is used.
