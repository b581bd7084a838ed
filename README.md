# win32json-transform core, modelled in Dafny

This project models three pieces of a tool that re-serialises Windows API
metadata into a canonical JSON-like text, and proves properties of them:

- **The canonical text emitter (`apiwriter.py`).** A `Writer` object stands in
  for the `writer` callback. It holds the text handed to it so far (`out`),
  and every emitter appends to it.
  - `WriteInline` walks a value tree of dicts, lists, strings, ints and bools.
  - `WriteInlineFields` writes fields in the order its caller fixes.
  - `WriteConstant` writes one constant as seven tab-indented CRLF lines:
    an opening line, one line per field (five), and a closing line.
  - `Write` writes the document shell: a `Constants` array, then empty
    `Types`, `Functions` and `UnicodeAliases` arrays.
  - Each method is proved against a specification function of the grammar
    (`Render`, `FieldsText`, `ConstantText`, `DocumentText`). The properties
    of those functions are proved as lemmas: layout read front to back,
    field order, independence from the dict's own order and extra keys, no
    escaping, and ints that read back.
  - Values the emitter cannot write abort the run; the abort is returned as
    an `Abort` value, which also covers the missing key and the non-dict
    subscript.
- **`ApiRef` (`apiref.py`).** A value type whose equality, ordering, hash and
  text all come from the single key `api + ":" + name`.
- **Module-name derivation (`apiload.py`).** `GetApiName` checks and strips
  the `.json` suffix. `LoadSortedList` maps a given directory listing through
  it and sorts the names in place, with an insertion sort on an array.
  Python's string order (by code point) is written out in module `Text`.

Files:
- `wrappers.dfy`: `Option` and `Result`.
- `text.dfy`: string order, and decimal text of ints with its reader.
- `apiref.dfy`, `apiload.dfy` and `apiwriter.dfy`: one per source file.

Two points where the code behaves differently from what a reader of the
output format might expect; the model follows the code:

- Constants are written one field per line, each line `\t\t`, then the
  separator, then `"field":value`, then `\r\n`. The comma of a later field
  therefore comes after the tabs, not at the end of the previous line, and
  the fields are not on one line.
- `ApiRef` does not reject a colon inside `api` or `name`, although the key
  is only unambiguous without one. The model shows the resulting key
  collision (`ColonMakesKeysAmbiguous`).

## Model

| member | source | states |
|---|---|---|
| ApiWriter.Writer.WriteInline | apiwriter.py:2-23 | succeeds exactly when the tree holds no None or float. On success it appends exactly `Render(v)`. On abort the abort carries the type name `NoneType` or `float` and the old text is still a prefix of the buffer |
| ApiWriter.Writer.WriteList | apiwriter.py:7-14 | the list branch: `[`, each element in order with `,` before all but the first, `]`. Same success condition as `WriteInline`; an abort carries `NoneType` or `float` and leaves the old text as a prefix |
| ApiWriter.Writer.WriteInlineFields | apiwriter.py:26-32 | succeeds exactly when every listed field is present and writable; then appends `FieldsText`. An abort is either the `NoneType`/`float` exit of an unwritable value or the lookup failure of one of the listed fields |
| ApiWriter.Writer.WriteConstant | apiwriter.py:34-37 | succeeds exactly when all five constant fields are present and writable; then appends `ConstantText(prefix, constant)` |
| ApiWriter.Writer.WriteConstants | apiwriter.py:43-46 | writes the constants in input order, the first with an empty prefix and later ones with `,`. It succeeds exactly when every constant can be written |
| ApiWriter.Writer.WriteClosing | apiwriter.py:47-62 | appends exactly the fixed document tail |
| ApiWriter.Writer.Write | apiwriter.py:39-62 | succeeds exactly when `api["Constants"]` exists, can be iterated and every constant can be written. The output is then the fixed head, the constants and the fixed tail |
| ApiWriter.Subscript | apiwriter.py:30 | `obj[key]` fails exactly when `obj` is not a dict or has no such key. A dict fails with `KeyError`, anything else with `TypeError` |
| ApiWriter.Iterate | apiwriter.py:44 | iteration succeeds exactly on a list, dict or string, and anything else fails with `TypeError` naming its type. A list yields its elements, a dict its keys in order, a string its one-character strings |
| ApiWriter.OwnFields | apiwriter.py:3-6 | writing a dict's own keys in iteration order succeeds exactly when all its values are writable, and gives the dict grammar `PairsText(es, "", "")` |
| ApiWriter.ListLayout | apiwriter.py:7-14 | a list is `[`, its elements' texts in input order joined by `,`, then `]`; an empty list is `[]` |
| ApiWriter.DictLayout | apiwriter.py:3-6 | a dict is `{`, each entry's `"key":value` in iteration order joined by `,`, then `}` |
| ApiWriter.FieldsLayout | apiwriter.py:26-32 | per field, in the order given: field prefix, separator (empty for the first, `,` after), `"field":`, value, field suffix |
| ApiWriter.SameLookupsSameText | apiwriter.py:29-30 | the fields text depends only on what each listed field looks up to. Unlisted keys and the dict's own order make no difference |
| ApiWriter.ConstantLayout | apiwriter.py:34-37 | a constant is `\t` + prefix + `{\r\n`, then its five fields in the fixed order (`\t\t` before each, `\r\n` after), then `\t}\r\n` |
| ApiWriter.AllFieldsOkEach | apiwriter.py:44-46 | the constants loop gets through exactly when every constant, at any position, has all five fields present and writable |
| ApiWriter.ConstantsLayout | apiwriter.py:43-46 | the constant blocks follow input order; the first has an empty prefix and every later one `,` |
| ApiWriter.NoEscaping | apiwriter.py:15-16 | strings are written between quotes with nothing escaped: a string holding `","` is written the same as two strings |
| ApiWriter.BoolLayout | apiwriter.py:17-18 | a bool takes the int branch and is written `True` / `False`, which is not an int's text |
| ApiWriter.EmptyConstants | apiwriter.py:39-62 | an empty constants list, or an empty string, gives just the head and the tail; a missing `Constants` key aborts |
| ApiWriter.StringConstantsAbort | apiwriter.py:44-45 | a non-empty string as `Constants` iterates as one-character strings; subscripting one of them aborts the run |
| ApiRefs.ApiRef.Combined | apiref.py:2-5 | the key is the api, a colon, then the name, each kept unchanged |
| ApiRefs.ApiRef.Str | apiref.py:14-17 | `str`/`repr` give the key, which splits back into the two parts when the api has no colon |
| ApiRefs.ApiRef.Eq | apiref.py:6-7 | equality of keys: every ref equals itself, and two refs of the same api are equal only with the same name (EqIffSameParts gives the converse for colon-free apis) |
| ApiRefs.ApiRef.Lt | apiref.py:10-11 | `<` on keys never holds between equal refs, and between refs of one api it is `<` on their names (LtStrictTotalOrder gives the order laws) |
| ApiRefs.ApiRef.Hash | apiref.py:12-13 | the hash of a ref is the string hash of its text form (HashConsistent: equal refs hash alike) |
| ApiRefs.EqIffSameParts | apiref.py:6-7 | with colon-free api parts, equality of keys is equality of both parts |
| ApiRefs.ColonMakesKeysAmbiguous | apiref.py:5-7 | no colon check exists: `("a:b","c")` and `("a","b:c")` compare equal and hash alike |
| ApiRefs.HashConsistent | apiref.py:12-13 | equal refs have equal hashes, whatever the string hash is |
| ApiRefs.LtStrictTotalOrder | apiref.py:10-11 | `<` is irreflexive, transitive, total up to equality and asymmetric |
| ApiRefs.ApiRef.Ge | apiref.py:8-11 | `a >= b` holds exactly when `a < b` does not |
| ApiRefs.LtIsNotPairOrder | apiref.py:10-11 | the order is that of the key string, not of the pair: api `a-b` sorts before api `a` |
| ApiRefs.IdentityExamples | apiref.py:6-11 | `Foo:Bar` equals itself, is below `Foo:Baz` and differs from `Foo:Barx` |
| ApiLoad.GetApiName | apiload.py:18-21 | accepts exactly the basenames ending in `.json`, and the name plus `.json` gives the basename back. Any other basename is rejected with an error naming it |
| ApiLoad.StripAll | apiload.py:22 | one name per listing entry, in listing order, each the entry minus `.json` |
| ApiLoad.SortInPlace | apiload.py:25 | after the in-place sort the array is sorted by code point and is a permutation of what it held |
| ApiLoad.LoadSortedList | apiload.py:18-27 | succeeds exactly when every entry ends in `.json`; otherwise the error names the first entry that does not. On success the result is sorted and a permutation of the stripped names |
| ApiLoad.SortedPermutationUnique | apiload.py:25 | two sorted arrangements of the same names are equal, so the result is fully determined by the listing |
| ApiLoad.ListingExample | apiload.py:22-25 | a listing `B.json`, `a.json`, `C.json` can only give `["B", "C", "a"]` (upper case sorts first) |
| ApiLoad.BareSuffixGivesEmptyName | apiload.py:18-21 | the basename `.json` alone is accepted and gives the empty name |
| Text.LessTrichotomy | apiload.py:25 | string `<` by code point is total and asymmetric, as the sort needs |
| Text.Less | apiref.py:10-11 | Python's `str` `<`, by code point: never between equal strings, and a proper prefix is below the longer string |
| Text.AtLeast | apiref.py:8-9 | Python's `str` `>=`, by code point: exactly the complement of `<` |
| Text.IntText | apiwriter.py:17-18 | the decimal text `"{}".format` gives an int (the int branch of `writeInline`, bools aside): a minus sign exactly for negatives, digits with no leading zero, and it reads back as that int |

## Left out

- The filesystem and the process are not modelled: `os.path.exists`, the printed clone instructions and `sys.exit` (apiload.py:11-16), and `os.listdir` (apiload.py:22). The listing is an input sequence, and the exit of `getApiName` is an error result. The clone message at apiload.py:15 uses undefined names and would raise `NameError`; that path is not modelled.
- The `writer` callback's real sink is left out; only the appended characters are modelled.
- Concrete hash values are left out. Python salts string hashes per process, so the string hash is a parameter and only "equal keys give equal hashes" is stated.
- The contents of `Types`, `Functions` and `UnicodeAliases` are not modelled. The source has only stubs there (apiwriter.py:50, 54, 58) and always writes them empty.
- Values hold only the seven kinds a JSON loader produces: dict, list, str, int, bool, `None` and float. Floats and `None` appear only as the abort branch of `writeInline`. Other Python kinds (tuples, sets, bytes, arbitrary objects), which would reach the same exit with their own type name (apiwriter.py:21-23), are outside the model.
- Dict iteration order is part of the input: a dict is an ordered sequence of key/value pairs. Every writer method that takes a value requires `WellFormed` of it (`WriteConstants` of each element), which says no dict repeats a key (true of every Python dict).
- ApiWriter.Writer.WriteInline: on abort, only "the old text is a prefix of the new" is stated. The exact partial output written before the abort is not pinned down.
- ApiWriter.Writer.WriteInlineFields: on abort, only the prefix fact and the cause are stated, not the partial output.
- ApiWriter.Writer.WriteList: on abort, only the prefix fact and the abort kind are stated, not the partial output.
- ApiWriter.Writer.WriteConstant: on abort, only the prefix fact is stated.
- ApiWriter.Writer.WriteConstants: on abort, only the prefix fact is stated, not the partial output or which constant failed.
- ApiWriter.Writer.Write: on abort, only the prefix fact is stated.
- The exit message texts of `sys.exit` are reduced to the data they carry: the type name (apiwriter.py:23) or the rejected basename (apiload.py:20). The exceptions `obj[field]` and the `for` loop raise (`KeyError` for a missing key, `TypeError` for a value that cannot be subscripted or iterated) are reduced to an `Abort` value naming the key or the type; their messages and tracebacks are left out.
- Strings are sequences of Dafny `char`, which are Unicode scalar values. Python strings holding lone surrogates (from a JSON `\ud800` escape, or from surrogate-escaped file names returned by `os.listdir`) cannot be represented.
- `ApiRef`'s `__eq__`, `__ge__` and `__lt__` (apiref.py:6-11) read `other.combined`, and raise `AttributeError` for an operand without it. `Eq`, `Ge` and `Lt` take only `ApiRef` operands, so that error path is not modelled.
