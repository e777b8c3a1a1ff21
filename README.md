# video-info-site: format selection and command generation, in Dafny

This project models the data-shaping core of a small web front end for a video metadata
extractor (`app.py`). It covers four pieces:

- `simplify_format` projects one format record onto eleven keys.
- `serialize_info` splits the format list into video and audio records on the test
  `vcodec != "none"`. It picks the best video record by `(height or 0, tbr or 0)` and the best
  audio record by `abr or 0`, using Python's `max`. It then returns both lists, simplified.
- `is_safe_format_id` is the whitelist `[0-9A-Za-z_+-]+`, matched in full.
- `generate_command` chooses one of three `yt-dlp` command templates.

Everything here is pure, so the model is functions and lemmas:

| file | module | contents |
|---|---|---|
| `wrappers.dfy` | `Wrappers` | `Option` (Python's None) and `Result` (a raised exception) |
| `formats.dfy` | `Formats` | dict keys (`Field`), the `Format` record, `Simplify` |
| `selection.dfy` | `Selection` | the video/audio partition, the ranking keys, `max` as a left-to-right scan |
| `serialize.dfy` | `Serialize` | the metadata record, the view, `SerializeInfo` |
| `command.dfy` | `Command` | the whitelist, `GenerateCommand`, a reader for the quoted `-f` argument |

A dict key is modelled as `Field<T> = Absent | Null | Val(v)`. The code reads values through
`dict.get`, which returns None for both a missing key and a key bound to None. Two behaviours
depend on which keys are present rather than on their values, so the model keeps the two
cases apart:

- the truthiness test `if best_video`: an empty dict is falsy;
- the eleven keys of a simplified record.

Python's `max(xs, key=k)` keeps its current best and replaces it only with a record whose key is
strictly greater. It therefore returns the first maximal record. `Selection.ScanBest` is that
scan. `Selection.IsFirstBest` is an independent description of its result, and the lemmas show
that this description determines the result uniquely.

Three behaviours of the code are easy to miss. The model keeps them as written:

- Serialization can fail. `info.get("formats", [])` (app.py:45) returns None for a `formats` key
  bound to None, and the comprehension at app.py:47 then raises a TypeError. `SerializeInfo`
  returns a `Failure` carrying that message.
- `best_video` can be None although `formats` is not empty. The test `if best_video`
  (app.py:76) checks dict truthiness, so a chosen record that is the empty dict `{}` is shown as
  None (`Serialize.EmptyRecordHidesBestVideo`). When no record is `{}`, a best entry is None exactly
  when its list is empty (`Serialize.BestMissingIffNoneOfKind`).
- The video id is not checked. app.py:89 interpolates it into the URL, and app.py:96, 104 and 110
  put that URL into the command unquoted (`Command.VideoIdNotScreened`). Only the format id passes
  the whitelist at app.py:91-93. The `-f` argument is therefore the one part of the command that is
  guarded (`Command.CommandSelectsRequested`).

## Model

| member | source | states |
|---|---|---|
| `Formats.Field.Get` | app.py:30-40 | `d.get(key)`: a missing key and a key bound to None both read as None, and a bound value reads as itself |
| `Formats.Store` | app.py:29-41 | an entry of a dict literal: the key is present and reads back the value written |
| `Formats.Simplify` | app.py:28-41 | each of the eleven keys reads back in the result exactly what it read in the input (None stays None, no defaults); `height` and every other key are gone |
| `Formats.SimplifiedKeysExactly` | app.py:28-41 | a simplified record has exactly the eleven keys `format_id` … `tbr`, whatever keys the input had |
| `Formats.SimplifyIdempotent` | app.py:28-41 | simplifying twice equals simplifying once |
| `Formats.SimplifyDependsOnlyOnElevenKeys` | app.py:28-41 | records that read alike on the eleven keys simplify to the same record (height and extra keys do not matter) |
| `Formats.SimplifiedIsTruthy` | app.py:28-41 | a simplified record is never the empty dict |
| `Formats.TruthyIffHasKeys` | app.py:76-77 | dict truthiness, as used by `if best_video`, holds exactly when the record has a key |
| `Formats.SimplifyAll` | app.py:73-74 | the list comprehension keeps the length, and entry i is the simplification of input i |
| `Selection.KindOf` | app.py:47-48 | a record is audio exactly when vcodec is the string "none"; a missing or None vcodec is video |
| `Selection.OfKind` | app.py:47-48 | a filtered part contains exactly the input records of its kind, and is no longer than the input |
| `Selection.PartitionInterleaves` | app.py:47-48 | the input is an order-preserving merge of the video part and the audio part |
| `Selection.PartitionCounts` | app.py:47-48 | counted with multiplicity, the two parts together are exactly the input: no record is dropped or duplicated |
| `Selection.SimplifyKeepsInterleaving` | app.py:73-74 | simplifying element-wise keeps an order-preserving merge a merge |
| `Selection.OrZero` | app.py:50-60 | `value or 0`: a missing, None or zero value ranks as 0, any other value as itself |
| `Selection.Beats` | app.py:50-60 | the `>` that `max` applies to keys: irreflexive; a video winner is at least as tall (tuple comparison on `(height or 0, tbr or 0)`); an audio winner has a strictly larger `abr or 0` |
| `Selection.ScanBest` | app.py:50-60 | the left-to-right scan `max` performs ends on the first maximal index: nothing beats it and it beats everything before it |
| `Selection.BestIndex` | app.py:50-60 | on a non-empty list, `max` picks the first maximal index |
| `Selection.BestOf` | app.py:50-60 | `max(..., default=None)` is None exactly on the empty list; otherwise it is the record at a first maximal index |
| `Selection.FirstBestUnique` | app.py:50-60 | at most one index is the first maximal one |
| `Selection.BestOfIsFirstBest` | app.py:50-60 | any first maximal index determines what `max` returns |
| `Selection.TieGoesToEarlier` | app.py:50-60 | of two equally ranked records, the earlier one is returned |
| `Selection.HeightDominates` | app.py:50-54 | a greater height beats any tbr; tbr only separates records of equal height |
| `Selection.BeatsThrough` | app.py:50-60 | the ranking is a strict weak order: if x beats y and z does not beat y, then x beats z |
| `Selection.ScanStep` | app.py:50-60 | one step of the scan keeps its invariant, replacing the best only on a strict win |
| `Serialize.FormatList` | app.py:45 | a missing `formats` key gives the empty list, a key bound to a list gives that list, and a key bound to None cannot be iterated |
| `Serialize.Shown` | app.py:76-77 | a best record is shown, simplified, exactly when it exists and is not the empty dict |
| `Serialize.SerializeInfo` | app.py:44-78 | fails, with the TypeError message for iterating None, exactly when `formats` is bound to None; otherwise `id` is the requested id and each metadata field reads as in the input |
| `Serialize.ListsPartitionInput` | app.py:45-74 | `formats` and `audio_formats` are an order-preserving merge of the simplified input, with lengths adding up to its length |
| `Serialize.ViewParts` | app.py:47-77 | (helper, unfolds `SerializeInfo`) each list of the view is its part simplified, and each best entry is shown from `max` over that part |
| `Serialize.ShownBest` | app.py:50-77 | the shown best entry exists exactly when the first maximal record is truthy, and is then the simplified entry at that index |
| `Serialize.BestIsFirstMaximal` | app.py:44-78 | `best_video` (`best_audio`) is present exactly when the first maximal video (audio) record exists and is not `{}`, and is then the entry of `formats` (`audio_formats`) at that index |
| `Serialize.BestMissingIffNoneOfKind` | app.py:44-78 | when no record is the empty dict, a best entry is missing exactly when its list is empty |
| `Serialize.EmptyFormats` | app.py:44-78 | with no formats (key missing or empty list), both lists are empty and both bests are None |
| `Serialize.EmptyRecordHidesBestVideo` | app.py:44-78 | a list holding only `{}` gives a one-entry `formats` but no `best_video` |
| `Command.IsSafeFormatId` | app.py:84-85 | the full match of `[0-9A-Za-z_+-]+` holds exactly when the id is non-empty and every character is an ASCII digit or letter, `_`, `+` or `-` |
| `Command.SafeIdHasNoShellSpecial` | app.py:84-85 | an id that passes holds no quote, whitespace, `;`, `$`, backquote or other shell-special character |
| `Command.WatchUrl` | app.py:89 | the URL is the fixed watch-page prefix followed by the unchanged video id |
| `Command.FormatIdGiven` | app.py:91 | `if format_id:` holds exactly when the id is present and not the empty string |
| `Command.GenerateCommand` | app.py:88-112 | fails, with "invalid format_id", exactly when a non-empty format id fails the whitelist |
| `Command.UpToQuote` | app.py:96 | the text before the first quote is a quote-free prefix, followed by a quote or the end |
| `Command.QuotedSelector` | app.py:96-110 | the `-f` argument (the text up to the next quote) can be read back exactly from commands that open with `yt-dlp -f "` |
| `Command.UpToQuoteStops` | app.py:96 | a quote-free text followed by a quote is read back exactly |
| `Command.QuotedSelectorReads` | app.py:96 | a command with a quote-free selector reads back that selector as its `-f` argument |
| `Command.CommandSelectsRequested` | app.py:88-112 | every generated command's `-f` argument is exactly the requested selector (the safe id, `bestaudio`, or `bestvideo+bestaudio/best`), and that selector holds no quote, `$`, backquote, backslash or other shell-special character, so a shell takes it literally |
| `Command.SelectorIsInert` | app.py:84-110 | the selector of every successful call holds no shell-special character: a given id passed the whitelist, and the template selectors are letters, `+` and `/` |
| `Command.CommandShape` | app.py:88-112 | every successful command is `yt-dlp -f "<selector>" `, then `--extract-audio --audio-format mp3 ` for the audio template only, then the watch-page URL |
| `Command.AudioTemplateShape` | app.py:100-107 | (helper, splits the literal) the audio template is the selector `bestaudio` followed by the mp3 extraction flags and the URL |
| `Command.DefaultTemplateShape` | app.py:109-112 | (helper, splits the literal) the default template is the selector `bestvideo+bestaudio/best` followed directly by the URL |
| `Command.AudioTemplateSelects` | app.py:100-107 | the audio template selects `bestaudio` |
| `Command.DefaultTemplateSelects` | app.py:109-112 | the default template selects `bestvideo+bestaudio/best` |
| `Command.CommandEndsWithUrl` | app.py:88-112 | every generated command ends with the watch-page URL of the requested video |
| `Command.NoteNamesTemplate` | app.py:91-112 | the note is "custom format_id", "audio only" or "best quality (video+audio)", in that order of precedence |
| `Command.FormatIdOverridesType` | app.py:91-100 | for any two media types, a non-empty format id gives the same outcome (the custom command, or the error when it fails the whitelist); an empty format id gives the same outcome as no format id |
| `Command.CustomFormatExample` | app.py:91-98 | `format_id="144p60"` yields `yt-dlp -f "144p60" <url>` with note "custom format_id" |
| `Command.UnsafeFormatIdsRejected` | app.py:91-93 | `bad;id`, an id with a quote and an id with a space are refused with "invalid format_id" |
| `Command.VideoIdNotScreened` | app.py:88-112 | a `;` in the video id survives into a generated command |

## Left out

- `get_video_info` (app.py:11-22) calls the external extractor over the network. The metadata record it returns is an input (`Serialize.Info`).
- The Flask routes, `render_template`, `jsonify`, the HTTP status codes and the `type` default of `"video"` (app.py:118-153) are web-framework wiring. `GenerateCommand` takes the media type and the optional format id as given.
- The entry point reads the `PORT` environment variable and starts the server (app.py:159-161). This is process I/O.
- `fps`, `vbr`, `abr` and `tbr` are floating point in the source and integers here. Ranking depends only on their order. NaN values and int/float mixing are not modelled.
- Fields are typed, for example `height` as an integer and `vcodec` as a string. A record whose values have other Python types is not modelled. With such values the source may raise while comparing keys.
- The TypeError raised for a `formats` key bound to None is modelled by one fixed message, the one CPython produces for iterating None.
- The regular-expression engine is not modelled. The whitelist is a predicate over characters, matched in full.
