# confluence_page2dashboard, modelled in Dafny

`confluence_page2dashboard.py` fetches one Confluence page, reads the records of
its first table, and prints or renders them. Most of the script is I/O. This
model covers the three parts that compute something:

- **Timestamp offset clean-up** (`ConfluencePage.__init__`). Confluence reports
  the last change as `2016-09-30T15:06:29.902+02:00`. `strptime`'s `%z` wants
  `+0200`, so the script deletes the colon when it is the third-from-last
  character. Module `ConfluencePage` (`confluence_page.dfy`) models this as a pure
  function. It is proved to remove exactly that colon, to undo the opposite
  rewrite (insert a colon before the last two characters), and to be idempotent
  unless the character before the removed colon is itself a colon (`"ab::cd"`
  becomes `"ab:cd"` and then `"abcd"`).
- **Table extraction** (`ConfluencePage2Dashboard.parse_html`). Module
  `ParseHtml` (`parse_html.dfy`) takes the parsed page as given: the first
  `table`, its first `tbody` (each may be missing), the `tr` rows and the text
  of each `td` cell. `ParseHtml` is the loop that skips the header row and
  appends one eight-field record per further row. It is proved equal to the
  recursive specification `Extract`. The lemmas about `Extract` give the record
  count, the row order, the field contents, and the three ways extraction
  fails. Python's `str.strip()`, with its full set of white-space characters,
  is in module `PyText` (`pytext.dfy`).
- **Configuration precedence** (`ConfluencePage2Dashboard.__init__`,
  `get_arguments`, `run`). Module `Dashboard` (`dashboard.dfy`) holds a class
  whose `conf` map is updated in place, as the script's dictionary is: first
  the defaults, then `update` with the command-line options, then `update` with
  the YAML file. Lemmas state that the file wins over the command line, and the
  command line wins over the defaults. They also state which file is read and
  where the verbosity comes from. `Configure` is the script's entry point up to
  the merge.

`results.dfy` holds the `Option` and `Result` datatypes.

Exceptions become values. A missing table is `Failure(NoTable)`, where the
script raises `AttributeError` on `None.find`. A table without `tbody` is
`Failure(NoTableBody)`. A data row with fewer than eight cells is
`Failure(ShortRow(r))`, where the script raises `IndexError`. The index `r` of
that first short row is extra information that the Python exception does not
carry. An empty YAML document makes `yaml.load` return `None`, and
`dict.update(None)` then raises `TypeError`. This is `UpdateRaised`. A missing
file or a YAML scanner error is `Exited(1)`.

Facts about the script that the model reflects:
- Cells are cleaned only by `.text.strip()`. The script removes no
  colour-parameter markup and substitutes no link titles, so the model does
  neither.
- `verbose` is in effect True by default. The constructor's `verbose=False` is
  always overwritten by `get_arguments`, which stores `verbose` every time
  (True by default, False with `-q`). Lemma `VerboseSource` states this.
- `conf['verbose'] == True` also holds for the integer 1 in Python.
  `IsVerbose` models that.

## Model

| member | source | states |
|---|---|---|
| ConfluencePage.NormaliseOffset | confluence_page2dashboard.py:55-56 | the string is returned unchanged exactly when its third-from-last character is not `:`; otherwise it is one character shorter |
| ConfluencePage.InsertOffsetColon | confluence_page2dashboard.py:55-56 | the inverse rewrite yields a string one longer whose third-from-last character is `:` |
| ConfluencePage.RemovesOffsetColon | confluence_page2dashboard.py:55-56 | with a colon third from last, only that colon is removed: same prefix before it, same last two characters, every other character shifted by one, multiset of characters minus one `:` |
| ConfluencePage.NormaliseIdempotent | confluence_page2dashboard.py:52-56 | when there is no colon third from last, or the character before it is not a colon, the result can be normalised again and does not change |
| ConfluencePage.NormaliseInsertOffsetColon | confluence_page2dashboard.py:55-56 | normalising after inserting the colon gives back the original string |
| ConfluencePage.InsertOffsetColonNormalise | confluence_page2dashboard.py:55-56 | inserting the colon after normalising a string that had one gives back the string |
| ConfluencePage.NormalisesOffset | confluence_page2dashboard.py:52-56 | a timestamp ending in `±HH:MM` ends in `±HHMM` afterwards and keeps everything before the offset |
| ConfluencePage.ConfluenceDateExample | confluence_page2dashboard.py:52-56 | `2016-09-30T15:06:29.902+02:00` becomes `2016-09-30T15:06:29.902+0200` |
| PyText.IsSpace | confluence_page2dashboard.py:130 | the characters Python's `str.isspace()` accepts, which `str.strip()` removes; used by every stripping lemma |
| PyText.TrimStart | confluence_page2dashboard.py:130 | `str.lstrip()`; characterised by `TrimStartSpec` |
| PyText.TrimEnd | confluence_page2dashboard.py:130 | `str.rstrip()`; characterised by `TrimEndSpec` |
| PyText.Strip | confluence_page2dashboard.py:130 | `str.strip()`; characterised by `StripIsInfix`, `StripIsStripped` and `StripUnique` |
| PyText.TrimStartSpec | confluence_page2dashboard.py:130 | left stripping removes a prefix made only of white space and stops at a character that is not white space |
| PyText.TrimEndSpec | confluence_page2dashboard.py:130 | right stripping removes a suffix made only of white space and stops at a character that is not white space |
| PyText.StripIsStripped | confluence_page2dashboard.py:130 | a stripped string neither starts nor ends with white space |
| PyText.StripIsInfix | confluence_page2dashboard.py:130 | the stripped string is a contiguous piece of the input with only white space before and after it |
| PyText.StripUnique | confluence_page2dashboard.py:130 | for any split into white space, a stripped middle and white space, stripping returns that middle |
| PyText.StripIdempotent | confluence_page2dashboard.py:130 | stripping twice equals stripping once |
| PyText.StripFixedPoint | confluence_page2dashboard.py:130 | stripping leaves a string unchanged exactly when it has no white space at either end |
| PyText.ReplaceAll | confluence_page2dashboard.py:80 | `str.replace` with a non-empty pattern, scanning left to right; characterised by `ReplaceAbsent` and `ReplaceSuffix` |
| PyText.ReplaceAbsent | confluence_page2dashboard.py:80 | `replace` changes nothing when the pattern does not occur |
| PyText.ReplaceSuffix | confluence_page2dashboard.py:80 | when the pattern occurs only as the suffix, `replace` swaps just that suffix |
| PyText.Basename | confluence_page2dashboard.py:80 | the base name is the longest suffix with no `/`, preceded by a `/` whenever it is not the whole path |
| PyText.BasenameAfterSlash | confluence_page2dashboard.py:80 | the base name of `DIR/NAME` is `NAME` when `NAME` has no slash |
| ParseHtml.StripCells | confluence_page2dashboard.py:130 | the list comprehension keeps one cell per `td`; `StripCellsAt` gives each cell |
| ParseHtml.RecordOf | confluence_page2dashboard.py:131-139 | the dictionary literal with keys merchant … state from `cols[0]` … `cols[7]`; `MakeRecordFields` gives each field |
| ParseHtml.MakeRecord | confluence_page2dashboard.py:129-139 | the record of one data row; characterised by `MakeRecordFields` and `MakeRecordIgnoresExtraCells` |
| ParseHtml.RecordsFrom | confluence_page2dashboard.py:127-142 | reference definition of the records of the rows from `i` on, or the first short row; characterised by `RecordsFromSpec` |
| ParseHtml.Extract | confluence_page2dashboard.py:121-142 | reference definition of `parse_html`'s result and its three errors; the loop `ParseHtml` is proved equal to it |
| ParseHtml.StripCellsAt | confluence_page2dashboard.py:130 | cell `k` after the list comprehension is cell `k` stripped |
| ParseHtml.MakeRecordFields | confluence_page2dashboard.py:129-139 | field `k` of a record (merchant … state) is the stripped text of cell `k`, with no white space at either end |
| ParseHtml.MakeRecordIgnoresExtraCells | confluence_page2dashboard.py:129-139 | cells after the eighth do not affect the record |
| ParseHtml.RecordsFromSucceeds | confluence_page2dashboard.py:128-139 | record building succeeds exactly when every remaining row has at least eight cells |
| ParseHtml.RecordsFromValue | confluence_page2dashboard.py:127-142 | on success there is one record per remaining row, record `j - i` built from row `j` |
| ParseHtml.RecordsFromError | confluence_page2dashboard.py:128-139 | on failure the error names the first remaining row with fewer than eight cells |
| ParseHtml.RecordsFromSpec | confluence_page2dashboard.py:127-142 | the three facts above together |
| ParseHtml.RecordsFromLongRows | confluence_page2dashboard.py:127-142 | when all data rows are long enough, the records are exactly those built row by row |
| ParseHtml.ExtractSucceedsIff | confluence_page2dashboard.py:122-139 | extraction succeeds exactly when the page has a table, the table has a `tbody`, and every row after the first has at least eight cells |
| ParseHtml.ExtractMissing | confluence_page2dashboard.py:122-125 | a missing table, and only that, gives `NoTable`; a table without `tbody`, and only that, gives `NoTableBody` |
| ParseHtml.ExtractRecords | confluence_page2dashboard.py:125-142 | on success the result has `max(0, rows - 1)` records; record `i` comes from row `i + 1` in order, and its field `k` is the stripped cell `k` |
| ParseHtml.ExtractShortRow | confluence_page2dashboard.py:128-139 | the first data row with fewer than eight cells makes extraction fail, and no records are returned |
| ParseHtml.ExtractIgnoresHeader | confluence_page2dashboard.py:125-128 | replacing the first row by anything leaves the outcome unchanged |
| ParseHtml.ParseHtml | confluence_page2dashboard.py:121-142 | the loop that skips the header and appends one record per row returns exactly what `Extract` specifies, error cases included |
| Dashboard.Override | confluence_page2dashboard.py:95 | after `update`, the keys are those of both maps; keys of the update take its values, and the others keep theirs |
| Dashboard.DefaultConfigFile | confluence_page2dashboard.py:77-81 | the default configuration path; `DefaultConfigFileOfScript` gives its value |
| Dashboard.Defaults | confluence_page2dashboard.py:75-82 | the constructor's dictionary: `verbose` False and `configfile` the default path |
| Dashboard.OptionValues | confluence_page2dashboard.py:149-161 | `vars(options)`: both destinations always present, `-c` or the current `configfile`, and `verbose` unless `-q` |
| Dashboard.Effective | confluence_page2dashboard.py:75-161 | defaults, then options, then file; `Precedence` states who wins |
| Dashboard.IsVerbose | confluence_page2dashboard.py:97 | `conf['verbose'] == True`, which the integer 1 also meets |
| Dashboard.ConfluencePage2Dashboard.constructor | confluence_page2dashboard.py:73-82 | the dictionary starts as `verbose` False and `configfile` equal to `$HOME/.` plus the script's base name with `.py` replaced by `.conf` |
| Dashboard.ConfluencePage2Dashboard.GetArguments | confluence_page2dashboard.py:146-161 | the dictionary is the old one updated with both option destinations; `-c` defaults to the current `configfile` and `verbose` to True, or False with `-q` |
| Dashboard.ConfluencePage2Dashboard.Run | confluence_page2dashboard.py:84-98 | a missing file or scanner error exits with 1 and leaves the dictionary alone; an empty document raises in `update`; otherwise the file's mapping is merged in, and the result records whether `verbose` is True |
| Dashboard.Configure | confluence_page2dashboard.py:166-169 | constructor, `get_arguments` and `run` read the file named by `-c` or the default dotfile; on success the dictionary is defaults, then options, then file |
| Dashboard.Precedence | confluence_page2dashboard.py:75-161 | in the merged dictionary a key from the file wins, then one from the command line, then the default; no other keys appear |
| Dashboard.VerboseSource | confluence_page2dashboard.py:154-161 | verbosity comes from the file's `verbose` if set (True or 1), else from the absence of `-q`; the constructor's False never decides |
| Dashboard.ConfigFileRead | confluence_page2dashboard.py:149-161 | before `run`, `configfile` is the `-c` argument if given, else the default path |
| Dashboard.DefaultConfigFileOfScript | confluence_page2dashboard.py:77-81 | for a script `DIR/NAME.py` with no other `.py` in `NAME`, the default file is `HOME/.NAME.conf` |
| Dashboard.ShippedScriptConfigFile | confluence_page2dashboard.py:77-81 | the shipped script reads `HOME/.confluence_page2dashboard.conf` by default |

## Left out

- The HTTP requests and JSON decoding in `ConfluencePage.__init__` (lines 38-40 and 63-66), and the fields they fill (`version`, `reviser`, `webui`, `title`, `content`): network I/O.
- `datetime.strptime` with `%z` (lines 59-61): library date parsing. The model stops at the normalised string.
- `ConfluencePage.NormaliseOffset`: a string shorter than three characters is excluded by a precondition. There Python's `s[-3]` raises `IndexError`, which the script does not handle.
- BeautifulSoup's HTML parsing (lines 122-125, 129): a foreign library. The model starts from its result: the first table, its first `tbody`, its `tr` rows and the `.text` of their `td` cells. `th` cells are not `td` cells and do not appear in a row.
- `yaml.load` itself (line 86). The model receives its outcome per file name: a scanner error, an empty document, or a mapping from keys to booleans, strings, integers or null. YAML parser errors other than `ScannerError` escape `run` uncaught and are not modelled. Neither are top-level documents that are not mappings, or nested values.
- `OptionParser`'s reading of `sys.argv` (lines 147-159), including its `--help` output and its exit on unknown options. The model starts from the parsed `-c` and `-q` values.
- `os.environ['HOME']` and `__file__`: these are parameters of the constructor.
- `pprint`, `eprint` and `exit` (lines 31-32, 88-98, 108): console and process plumbing. `Run` returns `Exited(1)` or `Configured(verbose)` in their place.
- The part of `run` after the merge (lines 100-108): the page fetch and the call to `parse_html`, which is modelled on its own.
- Template rendering and the update command: the script contains neither.
