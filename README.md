# BioTools core, modelled in Dafny

A Dafny model of the three data-handling parts of BioTools and proofs about them.

- **`MITAB_parser`** (`BioTools/MITAB_parser.py`) reads a PSI-MITAB interaction table. It covers:
  - the value check `Check_Value`;
  - the construction-time validation of the requested kinds and of the table's columns;
  - three extraction methods:
    - `get_UID_Gene_from_mitab`: UniProt accessions and gene symbols, found by `db_pattern.findall`, `find_uniprot`, `find_gene` and `combine_first`;
    - `get_taxid_from_mitab`: the three taxid patterns under `re.search`;
    - `get_publication_from_mitab`: `parse_identifiers`.
- **`gene2uniprot`** (`BioTools/gene2uniprot.py`) resolves gene symbols to UniProt accessions. It covers:
  - `_find_UID`, with its Swiss-Prot / TrEMBL choice and list unwrapping;
  - one pass `_async_request`: `gather` in submission order, then the split into a dict and an error list;
  - the retry loop of `gene2uniprotid`, which re-queries only the names still unresolved and merges the dicts.
- **`protein_annotation`** (`BioTools/protein_annotation.py`) annotates UniProt accessions. It covers:
  - `_parse_uniprot_data`: gene, taxid, the first FUNCTION comment, the GO dict and the sequence;
  - `_parse_pdb_data`;
  - `_get_protein_info`, with its error buckets;
  - `get_proteins_info`, over every accession.

The modules follow the files:

| module | file | models |
|---|---|---|
| `Wrappers` | `options.dfy` | `Option` and `Result` |
| `PyJson` | `py_json.dfy` | a decoded JSON value, with Python truthiness, `dict.get` and iteration |
| `MitabText` | `mitab_text.dfy` | `str.strip`, one-character `split` / `join` |
| `MitabEntries` | `mitab_entries.dfy` | `findall`, the two shapes, the two finders |
| `MitabFields` | `mitab_fields.dfy` | `parse_identifiers`, and the taxid patterns with `re.search` |
| `MitabParser` | `mitab_parser.dfy` | `Check_Value`, the checks, the table and the class `Parser` |
| `Gene2Uniprot`, `Gene2UniprotFacts` | `gene2uniprot.dfy` | the resolver and the retry-loop theorems |
| `UniprotEntry` | `protein_uniprot.dfy` | `_parse_uniprot_data` |
| `ProteinAnnotation` | `protein_annotation.dfy` | the PDB parse, `error_ids`, `_get_protein_info` and `get_proteins_info` |

No network access is modelled: each remote service is a function parameter.

- **Gene query.** `Query` maps a pass number and a gene name to a decoded body or a request error. The pass number lets a name unresolved in one pass resolve in a later one.
- **UniProt and PDB fetches.** `Fetch` maps an accession to the decoded body, or to None for a non-200 status or a caught exception.

Loops in the source are `while` loops in the model, each proved equal to a reference function. Examples:

| method | reference function |
|---|---|
| `ParseIdentifiers` | `Publications` |
| `FindUniprot` / `FindGene` | `Uniprot` / `Gene` |
| `ParseUniprotData` | `ParseUniprot` |
| `GetProteinsInfo` | `ProteinsInfo` |
| `Gene2UniprotId` | `Resolve` |

The properties are lemmas about those functions.

Two objects the source updates in place are classes:
- `MITAB_parser` is `MitabParser.Parser`. Its `df` field is the table, which `get_UID_Gene_from_mitab` and `get_taxid_from_mitab` replace;
- `error_ids` is `ProteinAnnotation.ErrorIds`, whose `Append` is `error_ids[k].append(id)`.

Python behaviour that the model keeps:

- **Exceptions the code does not catch are outcomes.**
  - A request error in `_async_query` makes `gene2uniprotid` raise `RequestFailed`.
  - An empty list under Swiss-Prot or TrEMBL raises `IndexError`, because `UID[0]` is outside the `try`.
  - An item without a colon makes `parse_identifiers` raise (`UnpackError`).
  - In `get_proteins_info`, such an exception is the outcome `Crashed`, and one crash makes the whole call raise (`ProteinsInfo` is None).
- **What crashes `_get_protein_info`.**
  - A sequence that holds a default (`"N/A"`, `[]` or `{}`). `error_ids` has no `'Sequence'` bucket, so `error_ids['Sequence'].append` raises KeyError. `EntryWithoutSequenceRaises` shows that an entry with no `sequence` field is enough. This is modelled as written.
  - A truthy PDB body that `_parse_pdb_data` cannot read, because it runs outside the `try` (`InfoCrashed`):
    - a number or `true`, which raises TypeError at `uniprot_id in data`;
    - a list or string that holds the accession, which raises TypeError at `data[uniprot_id]`;
    - a dict whose value under the accession is null, a number, a boolean, or a non-empty dict or string, which `for` cannot iterate as entries;
    - an entry that is not a dict;
    - an unhashable `pdb_id` (a list or a dict), which raises TypeError at `set(...)`.
- **Python's regular expressions.** The matchers are written out by hand:
  - `$` in `re.match` also accepts a single trailing newline;
  - `.` in `taxid:(.*)` stops at a newline;
  - `findall` resumes after each match, and is not anchored at `|`.

The model follows the code where its documentation says otherwise:

- **`gene2uniprot`.**
  - A transport failure is not an "unresolved" name: it makes the whole call raise.
  - The docstring says the dict values are dicts "containing the UniProt ID and an error flag". The code stores the ID itself.
- **`_get_protein_info`.** One identifier's failure does abort the batch: the `'Sequence'` KeyError, or a PDB body that `_parse_pdb_data` cannot read (a non-dict entry or an unhashable `pdb_id`, for example). An unhashable GO id does not: it raises inside `_parse_uniprot_data`, so that accession is filed under `ParseError` (`UnhashableGoIdIsParseError`).
- **`_parse_pdb_data`.** `list(set(...))` has no fixed order. The model keeps first occurrences in order and states only membership and the absence of duplicates.
- **`get_taxid_from_mitab`.** The docstring's examples are not what the patterns return:
  - the `text` mode returns the text after `(` up to the first `)`. It keeps the opening quote and has no closing one (`"Hepatitis C virus genotype 1b (isolate Con1`), while the docstring's example also ends in a closing quote (`QuotedText`);
  - the `full` mode returns what follows `taxid:`, without the tag (`QuotedFull`).

## Model

| member | source | states |
|---|---|---|
| `PyJson.DictLoop` | BioTools/protein_annotation.py:38 | iterating a list yields its items, and only a list yields a non-empty loop |
| `PyJson.NoneIfNull` | BioTools/gene2uniprot.py:39-41 | JSON null is Python's None, and nothing else is |
| `MitabText.StripLeftSpec` | BioTools/MITAB_parser.py:167-168 | `lstrip` is a suffix of the input, drops only whitespace, and leaves no leading whitespace |
| `MitabText.StripRightSpec` | BioTools/MITAB_parser.py:167-168 | `rstrip` is a prefix of the input, drops only whitespace, and leaves no trailing whitespace |
| `MitabText.StripSpec` | BioTools/MITAB_parser.py:167-168 | `strip` is a slice of the input between all-whitespace ends, and starts and ends with non-whitespace |
| `MitabText.IndexOf` | BioTools/MITAB_parser.py:164 | the first occurrence of the separator: none before it, and it is there unless at the end |
| `MitabText.Split` | BioTools/MITAB_parser.py:162 | splitting on the bar gives at least one piece, and no piece holds the separator |
| `MitabText.SplitJoin` | BioTools/MITAB_parser.py:162 | joining the pieces of a split gives back the cell |
| `MitabText.JoinSplit` | BioTools/MITAB_parser.py:162 | splitting the join of separator-free pieces gives back the pieces |
| `MitabEntries.ValueAt` | BioTools/MITAB_parser.py:110 | the greedy value group: non-empty, holds no bar, and stops at a bar or at the end of the cell |
| `MitabEntries.MatchHere` | BioTools/MITAB_parser.py:110 | a match at the front is a database tag with its greedy value; no match means no tag of any database starts there |
| `MitabEntries.Entries` | BioTools/MITAB_parser.py:110 | every value `findall` returns is non-empty and holds no bar |
| `MitabEntries.TagAtFirst` | BioTools/MITAB_parser.py:110 | a match for a database starts with that database name's first letter, so the alternation never competes |
| `MitabEntries.ValueItem` | BioTools/MITAB_parser.py:110 | `d:v` before a bar or the end starts a match for `d` whose group is `v` |
| `MitabEntries.MatchItem` | BioTools/MITAB_parser.py:110 | `d:v` before a bar or the end is matched as the pair `(d, v)` |
| `MitabEntries.EntryEnds` | BioTools/MITAB_parser.py:110 | a cell `d:v` holds exactly the entry `(d, v)` |
| `MitabEntries.EntryBeforeBar` | BioTools/MITAB_parser.py:110 | `d:v`, a bar, then `rest` holds `(d, v)` followed by the entries of `rest` |
| `MitabEntries.EntriesOfItem` | BioTools/MITAB_parser.py:110 | both of the above: the entries of a bar-joined cell are found item by item |
| `MitabEntries.TagNamesItem` | BioTools/MITAB_parser.py:110 | a tag matched at the front of an item followed by the end of the cell or a bar lies within the item, since no database name holds a bar |
| `MitabEntries.ForeignNoMatch` | BioTools/MITAB_parser.py:110 | no match starts at the front of an item in which no database name with its colon occurs |
| `MitabEntries.ForeignSkipped` | BioTools/MITAB_parser.py:110 | such an item gives no entries: the cell's entries are those of what follows it |
| `MitabEntries.ForeignItem` | BioTools/MITAB_parser.py:110 | an item of another database has no entries alone, and before a bar the cell's entries are those of the rest, as with `intact:EBI-1` before `uniprotkb:P12345` |
| `MitabEntries.ForeignByLetters` | BioTools/MITAB_parser.py:110 | an item without the letters `u`, `p` and `e`, such as `intact:EBI-1`, is of another database |
| `MitabEntries.FirstValid` | BioTools/MITAB_parser.py:120-124 | a value found has the required shape; nothing is found exactly when no entry is from the database with that shape |
| `MitabEntries.FirstValidIsFirst` | BioTools/MITAB_parser.py:121-123 | the value found belongs to a qualifying entry, and no qualifying entry comes before it |
| `MitabEntries.ByPriority` | BioTools/MITAB_parser.py:130-134 | a gene found by the priority scan is symbol-shaped |
| `MitabEntries.GeneByPriority` | BioTools/MITAB_parser.py:117-134 | `find_gene` takes the first symbol-shaped value of the highest-priority database that has one |
| `MitabEntries.GeneNone` | BioTools/MITAB_parser.py:127-134 | `find_gene` finds nothing exactly when no entry of the cell is symbol-shaped |
| `MitabEntries.ScanEntries` | BioTools/MITAB_parser.py:121-124 | the entry loop returns the first value from the database with the shape, or None |
| `MitabEntries.FindUniprot` | BioTools/MITAB_parser.py:120-124 | `find_uniprot` returns the first `uniprotkb` value with the accession shape, or None |
| `MitabEntries.FindGene` | BioTools/MITAB_parser.py:127-134 | `find_gene`'s two nested loops compute the priority scan |
| `MitabFields.SplitItemSpec` | BioTools/MITAB_parser.py:164-168 | an item without `:` cannot be unpacked; otherwise the key and the value are the stripped text before and after the first `:` |
| `MitabFields.Items` | BioTools/MITAB_parser.py:162-164 | one item per piece of the split on the bar, in order |
| `MitabFields.ParseIdentifiers` | BioTools/MITAB_parser.py:157-176 | the loop that fills the dict in place computes `Publications` |
| `MitabFields.FailureStays` | BioTools/MITAB_parser.py:162-164 | once an item raises, the whole parse raises with that error |
| `MitabFields.ParseItemsFails` | BioTools/MITAB_parser.py:162-164 | the parse raises exactly when some item has no colon, and it names the first such item |
| `MitabFields.ParseItemsPairs` | BioTools/MITAB_parser.py:162-176 | a successful parse had a colon in every item |
| `MitabFields.ParseItemsKeys` | BioTools/MITAB_parser.py:171-174 | the dict's keys are exactly the items' keys |
| `MitabFields.ParseItemsValues` | BioTools/MITAB_parser.py:171-174 | each key holds its values in input order; repeated keys accumulate and do not overwrite |
| `MitabFields.ParseItemsTotal` | BioTools/MITAB_parser.py:162-176 | the lists hold as many values in all as there are items |
| `MitabFields.TaxidTypeOf` | BioTools/MITAB_parser.py:211-212 | a `taxid_type` is accepted exactly when it is `digits`, `text` or `full` |
| `MitabFields.Run` | BioTools/MITAB_parser.py:216-218 | a greedy repetition takes the longest prefix inside the character class |
| `MitabFields.RunUnique` | BioTools/MITAB_parser.py:216-218 | the greedy run is the only run that stops outside the class |
| `MitabFields.DigitsAtSpec` | BioTools/MITAB_parser.py:216 | the `digits` matcher returns `v` exactly when `taxid:(\d+)` matches at that position with group `v` |
| `MitabFields.InParensSpec` | BioTools/MITAB_parser.py:217 | the `([^)]+)` tail matches exactly as the group reading says |
| `MitabFields.AfterDigitsSpec` | BioTools/MITAB_parser.py:217 | the `\s*\(([^)]+)` tail matches exactly as the pattern reading says |
| `MitabFields.AfterTagSpec` | BioTools/MITAB_parser.py:217 | the `\d+\s*\(([^)]+)` tail matches exactly as the pattern reading says |
| `MitabFields.TextAtSpec` | BioTools/MITAB_parser.py:217 | the `text` matcher returns `v` exactly when `taxid:\d+\s*\(([^)]+)` matches at that position with group `v` |
| `MitabFields.FullAtSpec` | BioTools/MITAB_parser.py:218 | the `full` matcher returns `v` exactly when `taxid:(.*)` matches at that position with group `v` |
| `MitabFields.SearchAtLeftmost` | BioTools/MITAB_parser.py:222-227 | `re.search` reports the match at the first position where one starts, or None |
| `MitabFields.NoneBeforeLeftmost` | BioTools/MITAB_parser.py:223 | no match starts before that position |
| `MitabFields.SearchFirst` | BioTools/MITAB_parser.py:222-227 | what `re.search` reports is the leftmost match |
| `MitabFields.SearchReaches` | BioTools/MITAB_parser.py:223 | a match starting anywhere is enough for `re.search` to find one |
| `MitabFields.SearchFinds` | BioTools/MITAB_parser.py:222-227 | `find_taxid` returns a value exactly when a match starts somewhere in the cell |
| `MitabFields.HumanDigits` | BioTools/MITAB_parser.py:216-225 | `digits` on `taxid:9606(human)` gives `9606` |
| `MitabFields.QuotedDigits` | BioTools/MITAB_parser.py:196-200 | `digits` on a cell shaped like the docstring's example gives the digits |
| `MitabFields.QuotedText` | BioTools/MITAB_parser.py:197-201 | `text` keeps the opening quote and stops at the first `)` |
| `MitabFields.QuotedTextAt` | BioTools/MITAB_parser.py:217 | the `text` pattern matches at the start of that cell with that group |
| `MitabFields.QuotedFull` | BioTools/MITAB_parser.py:198-202 | `full` returns everything after `taxid:`, without the tag |
| `MitabParser.CheckValue` | BioTools/MITAB_parser.py:5-27 | raises exactly when the value is not valid; the sentinel message becomes the "Wrong value" message naming the valid set, and any other message is raised as given |
| `MitabParser.DefaultMessageNamesValidSet` | BioTools/MITAB_parser.py:24-27 | the default message names the group and the valid set, and a custom message is raised as given |
| `MitabParser.KindOf` | BioTools/MITAB_parser.py:55 | a name is a kind exactly when it is in `valid_parsing_data`, and the kind found has that name |
| `MitabParser.Necessary` | BioTools/MITAB_parser.py:76 | the needed columns are exactly the union of the requested kinds' columns |
| `MitabParser.ValidateKinds` | BioTools/MITAB_parser.py:68-72 | succeeds exactly when every requested name is a kind, keeps their order, and otherwise raises with the kinds message |
| `MitabParser.CheckColumns` | BioTools/MITAB_parser.py:74-79 | raises exactly when a needed column is missing, naming one missing column and the needed set |
| `MitabParser.Project` | BioTools/MITAB_parser.py:231 | `df.loc[:, cols]` keeps every row and exactly the chosen columns, with their cells |
| `MitabParser.RenamedRow` | BioTools/MITAB_parser.py:137-138 | the renamed row has the four short columns, each holding its source cell |
| `MitabParser.Renamed` | BioTools/MITAB_parser.py:137-138 | the renamed table keeps every row and has exactly the four short columns |
| `MitabParser.RenamedDropsOtherKinds` | BioTools/MITAB_parser.py:138 | after `get_UID_Gene_from_mitab` the stored table lacks the taxid and publication columns, and the original identifier columns too |
| `MitabParser.CombineFirst` | BioTools/MITAB_parser.py:143-148 | `combine_first` keeps the primary value when there is one, and otherwise takes the other |
| `MitabParser.UidGeneShapes` | BioTools/MITAB_parser.py:141-149 | every identifier found has the accession shape and every gene the symbol shape; on both sides the ID column wins over the alias column |
| `MitabParser.UniprotShape` | BioTools/MITAB_parser.py:113-124 | an accession `find_uniprot` returns matches `^[A-Z][A-Z0-9]{5,9}$` |
| `MitabParser.CollectSpec` | BioTools/MITAB_parser.py:178-180 | one dict per row, each that row's parse, when no row raises; otherwise the error of the first row that raises |
| `MitabParser.CollectStays` | BioTools/MITAB_parser.py:178-180 | `apply` stops at the first row that raises |
| `MitabParser.Parser.Init` | BioTools/MITAB_parser.py:57-65 | the object holds the given table and kinds |
| `MitabParser.Parser.New` | BioTools/MITAB_parser.py:57-79 | construction succeeds exactly when every name is a kind and the table has their columns; otherwise it raises the kinds error first, then a missing-column error |
| `MitabParser.Parser.GetUidGene` | BioTools/MITAB_parser.py:81-150 | the table becomes the renamed four-column table, and the result is one identifier/gene row per input row; missing columns raise KeyError and leave the table unchanged |
| `MitabParser.Parser.FindUidGenes` | BioTools/MITAB_parser.py:141-149 | the rows of the result, in table order |
| `MitabParser.Parser.FindUidGene` | BioTools/MITAB_parser.py:143-148 | one row from `find_uniprot` and `find_gene` on its four cells, ID column first |
| `MitabParser.Parser.GetTaxid` | BioTools/MITAB_parser.py:184-239 | `taxid_type` defaults to `digits`; an unknown `taxid_type` raises ValueError before the table is touched; missing columns raise KeyError; otherwise the table becomes its two taxid columns and each row gives the search result of both cells |
| `MitabParser.Parser.GetPublications` | BioTools/MITAB_parser.py:153-182 | a missing column raises KeyError; otherwise each row's cell is parsed, and the first item without a colon raises; the table is unchanged |
| `Gene2Uniprot.FindUid` | BioTools/gene2uniprot.py:19-41 | `_find_UID` raises only IndexError, and a UID it returns is never None |
| `Gene2Uniprot.FindUidChoice` | BioTools/gene2uniprot.py:33-41 | None when `hits[0].uniprot` cannot be reached; otherwise Swiss-Prot, then TrEMBL; a list (Swiss-Prot's, or TrEMBL's when Swiss-Prot is null) gives its first element, and an empty list raises IndexError |
| `Gene2Uniprot.GatherInOrder` | BioTools/gene2uniprot.py:65-66 | `gather` raises exactly when some query raises; otherwise it pairs each name with its outcome, in submission order |
| `Gene2Uniprot.PartitionSpec` | BioTools/gene2uniprot.py:67-68 | the dict's keys are exactly the resolved names, with a value one of their outcomes gave; the error list holds exactly the unresolved ones, in order, one entry per unresolved outcome |
| `Gene2Uniprot.PassPartitions` | BioTools/gene2uniprot.py:43-70 | one pass puts every queried name either among the dict's keys, with the UID its query found, or in the error list, and in only one of them |
| `Gene2Uniprot.RetryStep` | BioTools/gene2uniprot.py:101-107 | an iteration with errors left either raises with that batch sent, or merges the pass's dict and continues with its error list |
| `Gene2Uniprot.ResolveStart` | BioTools/gene2uniprot.py:98-101 | the first pass queries every name, and the loop continues from its dict and error list |
| `Gene2Uniprot.Gene2UniprotId` | BioTools/gene2uniprot.py:72-112 | `cycles` defaults to 2; the method computes `Resolve` on the service's passes; `cycles < 1` raises ValueError with nothing sent |
| `Gene2Uniprot.RetryPasses` | BioTools/gene2uniprot.py:101-107 | the `for` loop with its `break` computes `Retry` from pass 1 |
| `Gene2UniprotFacts.RetryBatches` | BioTools/gene2uniprot.py:101-107 | the loop sends at most `cycles - 1` batches, none of them empty, each the previous pass's error list |
| `Gene2UniprotFacts.RetryResult` | BioTools/gene2uniprot.py:101-112 | the loop returns the error list of its last pass, which is empty unless every iteration ran |
| `Gene2UniprotFacts.PassesSplit` | BioTools/gene2uniprot.py:43-70 | every pass `_async_request` makes splits its batch between the dict's keys and the error list |
| `Gene2UniprotFacts.PassKeepsCover` | BioTools/gene2uniprot.py:104-105 | re-querying the error list and merging keeps every name in exactly one of the dict and the error list |
| `Gene2UniprotFacts.RetryCovers` | BioTools/gene2uniprot.py:101-107 | the retry loop keeps that split of all names |
| `Gene2UniprotFacts.RetryKeeps` | BioTools/gene2uniprot.py:105 | later passes only add names that were still unresolved, so earlier entries keep their values |
| `Gene2UniprotFacts.RetryMergeHead` | BioTools/gene2uniprot.py:104-105 | the entries of the loop's first pass reach the final dict with their values |
| `Gene2UniprotFacts.RetryMergeAt` | BioTools/gene2uniprot.py:101-107 | an entry of any later pass reaches the final dict with the value found there |
| `Gene2UniprotFacts.RejectsCycles` | BioTools/gene2uniprot.py:98-99 | `cycles < 1` raises ValueError before any query |
| `Gene2UniprotFacts.ResolveChain` | BioTools/gene2uniprot.py:98-107 | between 1 and `cycles` batches are sent: all names first, then each pass's error list |
| `Gene2UniprotFacts.ResolvePasses` | BioTools/gene2uniprot.py:98-112 | the chain of batches, each within the one before; the returned error list is the last pass's, and it is empty unless all `cycles` passes ran |
| `Gene2UniprotFacts.ResolveCovers` | BioTools/gene2uniprot.py:98-112 | every input name is in exactly one of the returned dict and error list, and nothing else is |
| `Gene2UniprotFacts.ResolveMergeHead` | BioTools/gene2uniprot.py:100-105 | the first pass's entries are in the returned dict with their values |
| `Gene2UniprotFacts.ResolveMerge` | BioTools/gene2uniprot.py:100-107 | merging loses nothing: every entry any pass resolved is in the returned dict with that pass's value |
| `Gene2UniprotFacts.SecondPassRescues` | BioTools/gene2uniprot.py:86-107 | a name missed by pass 1 and found by pass 2 stays unresolved with `cycles=1` and is resolved with `cycles=2` |
| `UniprotEntry.ScanCommentsFirst` | BioTools/protein_annotation.py:38-46 | the annotation comes from the first FUNCTION comment with a text list holding a `value`; comments before it are skipped, and a raising comment ends the scan |
| `UniprotEntry.MalformedFunctionSkipped` | BioTools/protein_annotation.py:40-46 | a FUNCTION comment whose text is a dict, or whose first text has no `value`, is skipped (`KeyError` caught, `continue`) |
| `UniprotEntry.GoPairsSpec` | BioTools/protein_annotation.py:48-53 | the GO pairs are exactly the `(id, term)` of the GO references, and collecting them raises only where a reference raises |
| `UniprotEntry.GoPairsOrder` | BioTools/protein_annotation.py:48-53 | the `j`-th pair is the `id` and `properties.term` of the `j`-th reference of type GO, in reference order, and every GO reference has its pair |
| `UniprotEntry.ZipDictRaises` | BioTools/protein_annotation.py:54 | `dict(zip(...))` raises exactly when some id is unhashable |
| `UniprotEntry.ZipDictKeys` | BioTools/protein_annotation.py:54 | the dict's keys are exactly the ids |
| `UniprotEntry.ZipDictLastWins` | BioTools/protein_annotation.py:54 | a repeated id keeps the term of its last occurrence |
| `UniprotEntry.GoIndicesSpec` | BioTools/protein_annotation.py:48-50 | the GO positions are increasing, each names a reference of type GO, and every GO reference is named |
| `UniprotEntry.GoPairAt` | BioTools/protein_annotation.py:48-53 | the `j`-th pair is the `id` and `properties.term` of the `j`-th reference of type GO |
| `UniprotEntry.GoTermsKeys` | BioTools/protein_annotation.py:48-54 | the GO dict's keys are exactly the ids of the references of type GO |
| `UniprotEntry.GoTermsValue` | BioTools/protein_annotation.py:48-54 | a GO id maps to the `properties.term` of the last GO reference carrying that id |
| `UniprotEntry.EmptyEntryDefaults` | BioTools/protein_annotation.py:23-60 | an empty entry gives `N/A` for gene, taxid, annotation and sequence, and an empty GO dict |
| `UniprotEntry.EmptyGeneRaises` | BioTools/protein_annotation.py:33 | an empty `gene` list, or an entry that is not a dict, makes the parse raise |
| `UniprotEntry.ParseUniprotData` | BioTools/protein_annotation.py:21-60 | `_parse_uniprot_data` with its loops computes `ParseUniprot` |
| `UniprotEntry.ScanCommentList` | BioTools/protein_annotation.py:38-46 | the comment loop with its `break` and `continue` computes the comment scan |
| `UniprotEntry.CollectGoPairs` | BioTools/protein_annotation.py:48-53 | the reference loop computes the GO pairs |
| `UniprotEntry.ZipGoTerms` | BioTools/protein_annotation.py:54 | building the dict pair by pair computes `dict(zip(...))` |
| `ProteinAnnotation.DedupSpec` | BioTools/protein_annotation.py:82 | `list(set(xs))` holds exactly the elements of `xs`, with no duplicates |
| `ProteinAnnotation.PdbIdsOfSpec` | BioTools/protein_annotation.py:80-81 | the entries loop succeeds exactly when every entry is a dict, and then gives each entry's `pdb_id`, in order |
| `ProteinAnnotation.ParsePdbSpec` | BioTools/protein_annotation.py:77-82 | the structures are exactly the `pdb_id`s of the accession's entries, without duplicates |
| `ProteinAnnotation.ParsePdbEmpty` | BioTools/protein_annotation.py:78-79 | an empty body, or one without the accession, gives no structures |
| `ProteinAnnotation.CollectPdbIds` | BioTools/protein_annotation.py:80-81 | the `append` loop computes the `pdb_id` list |
| `ProteinAnnotation.Distinct` | BioTools/protein_annotation.py:82 | `list(set(...))` raises on an unhashable id and otherwise removes duplicates |
| `ProteinAnnotation.ParsePdbData` | BioTools/protein_annotation.py:77-82 | `_parse_pdb_data` computes `ParsePdb` |
| `ProteinAnnotation.ErrorIds.constructor` | BioTools/protein_annotation.py:131-139 | the registry starts with the seven empty buckets |
| `ProteinAnnotation.ErrorIds.Append` | BioTools/protein_annotation.py:100 | `error_ids[k].append(id)` adds the id to the end of an existing bucket, raises KeyError for a missing one, and changes nothing else |
| `ProteinAnnotation.MarkDefaults` | BioTools/protein_annotation.py:98-100 | the default loop keeps the registry's set of buckets |
| `ProteinAnnotation.MarkDefaultsRaises` | BioTools/protein_annotation.py:98-100 | the default loop raises exactly when a defaulted field has no bucket |
| `ProteinAnnotation.MarkDefaultsFiles` | BioTools/protein_annotation.py:98-100 | every defaulted field's bucket gains the id once, and the other buckets are unchanged |
| `ProteinAnnotation.MarkDefaultsStays` | BioTools/protein_annotation.py:98-100 | once the loop raises, the whole loop raises |
| `ProteinAnnotation.FileDefaults` | BioTools/protein_annotation.py:98-100 | the in-place loop over `error_ids` computes `MarkDefaults` |
| `ProteinAnnotation.Info` | BioTools/protein_annotation.py:84-106 | one accession's processing keeps the registry's set of buckets |
| `ProteinAnnotation.Finish` | BioTools/protein_annotation.py:98-106 | the part after a successful parse keeps the registry's set of buckets |
| `ProteinAnnotation.GetProteinInfo` | BioTools/protein_annotation.py:84-106 | `_get_protein_info` on the registry object computes `Info`'s outcome and, unless it raises, `Info`'s buckets |
| `ProteinAnnotation.ChecksDistinct` | BioTools/protein_annotation.py:23-29 | the result's field names are distinct |
| `ProteinAnnotation.InfoSkipped` | BioTools/protein_annotation.py:85-95 | None is returned exactly when the fetch fails or the parse raises, and then only the `UniProtID` or `ParseError` bucket gains the id |
| `ProteinAnnotation.FinishCrashed` | BioTools/protein_annotation.py:98-103 | after a parse, the call raises exactly when the sequence is `N/A` or the PDB body cannot be parsed |
| `ProteinAnnotation.EntryWithoutSequenceRaises` | BioTools/protein_annotation.py:57-100 | an entry without a sequence makes `_get_protein_info` raise KeyError |
| `ProteinAnnotation.UnhashableGoIdIsParseError` | BioTools/protein_annotation.py:90-95 | an entry with a GO reference whose id is a list is filed under `ParseError`, and the call returns None without raising |
| `ProteinAnnotation.InfoCrashed` | BioTools/protein_annotation.py:84-103 | a parsed entry raises exactly when its sequence holds a default (`N/A`, `[]` or `{}`) or a truthy PDB body cannot be parsed |
| `ProteinAnnotation.FinishRecord` | BioTools/protein_annotation.py:102-106 | the record holds the accession, the parsed fields, and the structures (empty for a missing or empty PDB body) |
| `ProteinAnnotation.FinishDone` | BioTools/protein_annotation.py:98-102 | each defaulted field's bucket gains the id, `PDB` gains it when the PDB fetch failed, and nothing else changes |
| `ProteinAnnotation.InfoDone` | BioTools/protein_annotation.py:84-106 | a returned record is the parse of the entry, with its accession and structures, and the buckets changed as above |
| `ProteinAnnotation.InfoOutcomeIndependent` | BioTools/protein_annotation.py:84-106 | an accession's outcome does not depend on what the registry already holds |
| `ProteinAnnotation.FinishFilesDone` | BioTools/protein_annotation.py:98-106 | after a parse, each bucket gains the id at most once, and `UniProtID` and `ParseError` are untouched |
| `ProteinAnnotation.FinishFilesCrashed` | BioTools/protein_annotation.py:98-103 | a raising call still adds the id at most once to each bucket |
| `ProteinAnnotation.FinishFiles` | BioTools/protein_annotation.py:98-106 | both of the above, and a record carries the accession |
| `ProteinAnnotation.InfoFiles` | BioTools/protein_annotation.py:84-106 | each bucket gains the id at most once; unless it raises, exactly one of a record, the `UniProtID` bucket and the `ParseError` bucket accounts for it |
| `ProteinAnnotation.CallIndependent` | BioTools/protein_annotation.py:143 | each accession's call has an outcome independent of the registry |
| `ProteinAnnotation.CallFilesAt` | BioTools/protein_annotation.py:143 | each call adds only its own id, and accounts for it once |
| `ProteinAnnotation.CallFiles` | BioTools/protein_annotation.py:143 | that holds for every accession and every registry |
| `ProteinAnnotation.GatherCrashStays` | BioTools/protein_annotation.py:143-147 | once one task raises, `gather` raises |
| `ProteinAnnotation.GatherOutcomes` | BioTools/protein_annotation.py:143-147 | the results are in input order, each the outcome of its accession alone |
| `ProteinAnnotation.GatherCrash` | BioTools/protein_annotation.py:143-147 | `gather` raises exactly when some accession's call raises |
| `ProteinAnnotation.GatherCounts` | BioTools/protein_annotation.py:143-149 | records plus `UniProtID` entries plus `ParseError` entries number as many as the accessions |
| `ProteinAnnotation.GatherFilesInput` | BioTools/protein_annotation.py:131-147 | every id in every bucket is one of the input accessions |
| `ProteinAnnotation.GatherRecordIds` | BioTools/protein_annotation.py:143-147 | the record at position `i` carries the `i`-th accession |
| `ProteinAnnotation.ValidResultsSpec` | BioTools/protein_annotation.py:149 | `valid_results` holds exactly the returned records, one per non-None result |
| `ProteinAnnotation.ValidResultsOrder` | BioTools/protein_annotation.py:149 | `valid_results` keeps the order of the results: its `j`-th record is that of the `j`-th non-None result, and no non-None result is dropped |
| `ProteinAnnotation.GatherAccounts` | BioTools/protein_annotation.py:131-147 | after the gather, every accession has finished or is filed under `UniProtID` or `ParseError` |
| `ProteinAnnotation.GetProteinsInfo` | BioTools/protein_annotation.py:108-154 | `get_proteins_info` computes `ProteinsInfo` |
| `ProteinAnnotation.ProteinsInfoOutcomes` | BioTools/protein_annotation.py:141-147 | the call raises exactly when some accession's processing raises; otherwise the results are the accessions' outcomes, in order |
| `ProteinAnnotation.ProteinsInfoAccounts` | BioTools/protein_annotation.py:108-154 | the returned registry has the seven buckets; the records, `UniProtID` entries and `ParseError` entries number as many as the accessions, and each accession has a record carrying it or is under `UniProtID` or `ParseError`; buckets and records hold only input accessions |
| `ProteinAnnotation.EveryIdFiled` | BioTools/protein_annotation.py:131-149 | each accession has a record carrying it, or is filed under `UniProtID` or `ParseError` |
| `ProteinAnnotation.InfoFiledAs` | BioTools/protein_annotation.py:84-106 | a call that does not raise appends its accession once to each bucket the fetches say it belongs to (`UniProtID`, `ParseError`, a defaulted field, or `PDB` for a failed PDB fetch) and to no other |
| `ProteinAnnotation.FiledIdsSpec` | BioTools/protein_annotation.py:127-128 | an accession is listed for a bucket exactly when it is one of the inputs and is filed under that bucket |
| `ProteinAnnotation.GatherBuckets` | BioTools/protein_annotation.py:131-147 | after a gather that does not raise, each bucket lists, in input order, exactly the accessions filed under it |
| `ProteinAnnotation.ProteinsInfoBuckets` | BioTools/protein_annotation.py:108-154 | each returned bucket is the list, in input order, of the accessions filed under it: an accession is under `k` exactly when it is an input filed under `k`; one whose entry was not fetched is under `UniProtID`, and one whose entry parsed but whose PDB fetch failed is under `PDB` |
| `ProteinAnnotation.ProteinsInfoOrder` | BioTools/protein_annotation.py:141-149 | the records follow the order of the accessions: the `j`-th is the one computed for the `j`-th accession that finished, it carries that accession, and every accession that finished has its record |

## Left out

- HTTP, `aiohttp` sessions, `TCPConnector(limit=max_concurrent)`, `time.sleep(5)`, `print` and `tqdm` are not modelled. Each remote service is a deterministic function of the pass number (gene query) or the accession (UniProt, PDB).
- `asyncio.gather` is modelled as running the tasks in submission order. When several tasks raise, the model reports the earliest in submission order; which one Python surfaces depends on scheduling.
- In `get_proteins_info`, the buckets filled by tasks before one raised are not modelled, because the call raises and they are never returned. `GetProteinInfo` leaves the registry unspecified after a crash.
- The model records which kind of exception is raised (ValueError, IndexError, KeyError, TypeError, AttributeError, a failed request), not the exception object or its message text. For `Check_Value` it records the message's parts, since Python's order for printing a set is not fixed.
- pandas is reduced to a table of text cells. NaN cells are not modelled, nor `str(s)` on non-strings, nor index alignment in `combine_first` (both series share the table's index).
- JSON numbers are integers: floating point is not modelled. Python's `1 == True` key merging in dicts is not modelled.
- `\d`, `\s` and the letter classes are ASCII (plus the whitespace characters `str.isspace` knows). Other Unicode digits and letters are not modelled.
- `ProteinAnnotation.DedupSpec`: `list(set(...))` has no fixed order. The model keeps first occurrences, and the contract states only membership and the absence of duplicates.
- `UniprotEntry.GoPairsSpec`: `go_terms` and `go_descripion` are kept as one list of pairs, which is what `zip` pairs up, since the two are always appended together.
- `Gene2UniprotFacts.ResolveCovers`: stated for any pass function that splits its batch (`Splits`). `PassesSplit` proves this for the passes `_async_request` makes, so it applies to `gene2uniprotid`. The same holds for the other `Resolve*` and `Retry*` theorems.
- The `MITAB_parser` constructor as written raises AttributeError on every call. It refers to `self.data_path_A`, `self.data_path_B` and `self.data`, none of which exist. It also binds `self.get_publications_from_mitab`, while the method is named `get_publication_from_mitab`, and its default `['UniProtID']` is not a valid kind. `MitabParser.Parser.New` models the evident intent instead:
  - the requested names must be in `valid_parsing_data`;
  - the table must hold the columns of those kinds, which are the columns the extraction methods read.
- `MitabParser.CheckColumns`: the columns are checked in Python's set order, which is not fixed. The contract states only that the error names one of the missing columns.
- The `get_data` dispatch dict and `MITAB_columns` are not modelled. Neither is read by any modelled path.
- `_async_query`'s URL construction and the commented-out variant are not modelled: the query is an oracle keyed by the pass and the gene name. `gene2uniprotid`'s `taxid` parameter (default 9606) only enters that URL, so it is part of the oracle.
