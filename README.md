# Model registry resolver

A Dafny model of `ModelResolver` from `sensor/predictor.py` in the sensor
fault-detection pipeline. The resolver treats a registry root directory
(`saved_models` by default) as a versioned store of model artifacts:

- Every entry of the root whose name Python's `int()` accepts is a model version.
- The latest version is the maximum of those integers.
- Its directory path is built from the canonical decimal rendering of that maximum.
- Readers join that directory with one of three fixed file names: transformer, model and target encoder.
- Saving allocates version `latest + 1`, or `0` when no version exists, and creates that directory.

The model has five modules:

- `Wrappers`: `Option` and `Result`. They stand for Python's `None` returns and raised exceptions.
- `Decimal`: `int(s)` on plain signed decimal strings (`ParseInt`, characterised by `ParseAccepts` and `ParseSign`) and `f"{n}"` (`Render`), with the round trip between them.
- `Paths`: `os.path.join`, `os.path.basename` and `os.path.dirname` with `/` as the separator, with split/join round trips.
- `Resolver`: the specification functions over a directory listing (`Latest`, `NextVersion`, `AfterSave`) and the class `ModelResolver`. The class holds the registry root and the listing `entries`, which the save operations extend.
- `Scenarios`: concrete listings and client calls. They cover a mixed listing, the name `007`, negative names, a first save into an empty registry, and two single-path saves in a row.

The three readers `get_latest_model_path`, `get_latest_transformer_path` and
`get_latest_target_encoder_path` are one function, `LatestPath(kind)`.
The three single-path allocators `get_latest_save_*_path` are one method, `GetLatestSavePath(kind)`.
`kind` is an `ArtifactKind`.
Readers are functions of the listing, so they cannot change it.
`GetLatestDirPath`, the loop of `get_latest_dir_path`, has no `modifies` clause.

Versions may be negative: `int()` accepts a leading `-`. So a registry holding only `-5` allocates `-4` next (`Scenarios.NegativeVersion`).
A directory named `007` is version 7, and the latest path names it `<root>/7`, as `f"{max}"` renders it (`Scenarios.CanonicalName`).

## Model

| member | source | states |
|---|---|---|
| `Decimal.ParseAccepts` | sensor/predictor.py:26-29 | `int()` succeeds exactly on non-empty strings other than a lone sign whose characters are all digits, except that the first may be `+` or `-`; every other string is the `ValueError` case |
| `Decimal.ParseSign` | sensor/predictor.py:27 | a digit string parses to its decimal value; a leading `+` keeps that value and a leading `-` negates it |
| `Decimal.RenderNat` | sensor/predictor.py:35 | the rendering of a non-negative number is a non-empty digit string denoting it, with no leading zero unless it is `0` |
| `Decimal.Render` | sensor/predictor.py:35 | `f"{n}"` is non-empty, starts with `-` exactly for negative n, and otherwise holds only digits |
| `Decimal.ParseRender` | sensor/predictor.py:74 | re-parsing a rendered version gives that version back |
| `Decimal.RenderInjective` | sensor/predictor.py:77 | distinct versions get distinct directory names |
| `Decimal.LeadingZero` | sensor/predictor.py:27 | a leading zero does not change the parsed value (`"007"` and `"7"` are one version) |
| `Paths.Basename` | sensor/predictor.py:74 | the base name is the longest suffix without a separator, preceded by a separator when shorter than the path |
| `Paths.Dirname` | sensor/components/model_pusher.py:90 | a path holding a separator is its dirname, a separator and its basename; without a separator the dirname is empty |
| `Paths.SplitJoin` | sensor/predictor.py:74 | basename and dirname of `join(dir, name)` are `name` and `dir` when the name has no separator |
| `Paths.JoinSplit` | sensor/components/model_pusher.py:90-92 | joining the dirname and basename of a path with a separator gives the path |
| `Resolver.FileName` | sensor/predictor.py:2-6 | each artifact's file name is non-empty and has no separator |
| `Resolver.FileNamesDistinct` | sensor/predictor.py:92-99 | the three artifacts of one version get three different files |
| `Resolver.Message` | sensor/predictor.py:43 | the "not available" message starts with the name of the artifact asked for |
| `Resolver.Latest` | sensor/predictor.py:19-34 | None exactly when no entry parses; otherwise a parsed value of some entry that is at least every parsed value |
| `Resolver.NextVersion` | sensor/predictor.py:68-75 | the allocated number is strictly greater than every parsed entry, and is 0 when none parses |
| `Resolver.AfterSave` | sensor/predictor.py:77-80 | a save adds exactly the allocated name, which was not yet in the listing |
| `Resolver.SaveThenLatest` | sensor/predictor.py:77-82 | after a save the latest version is the one just allocated |
| `Resolver.ConsecutiveSaves` | sensor/predictor.py:104-122 | two saves in a row allocate consecutive numbers n and n + 1 |
| `Resolver.ModelResolver.constructor` | sensor/predictor.py:13-15 | the resolver holds the given root (by default `saved_models`) and the root's current listing |
| `Resolver.ModelResolver.LatestDir` | sensor/predictor.py:17-35 | None exactly when no entry parses; otherwise a child of the root whose name parses to the latest version, rendered canonically |
| `Resolver.ModelResolver.MaxOfList` | sensor/predictor.py:34 | `max` of a non-empty list is an element of it and at least every element |
| `Resolver.ModelResolver.ParseAll` | sensor/predictor.py:24-29 | the loop's list holds exactly `Versions`, the values of the entries that parse; names that raise are skipped |
| `Resolver.ModelResolver.GetLatestDirPath` | sensor/predictor.py:17-37 | the loop over the listing returns exactly `LatestDir`, without changing the listing |
| `Resolver.ModelResolver.LatestPath` | sensor/predictor.py:39-63 | fails with the kind's not-available error exactly when no entry parses; otherwise the kind's file inside the latest directory |
| `Resolver.ModelResolver.GetLatestSaveDirPath` | sensor/predictor.py:66-84 | creates `<root>/<NextVersion>` as the only change to the listing and returns it; that directory is then the latest |
| `Resolver.ModelResolver.GetLatestSavePaths` | sensor/predictor.py:86-102 | one allocation; all three paths have the new directory as parent and the kind's file as name; each reader then returns the matching save path |
| `Resolver.ModelResolver.GetLatestSavePath` | sensor/predictor.py:104-123 | each call allocates its own version; the path is the kind's file in the new directory, and the reader for that kind then returns it |
| `Scenarios.MixedListing` | sensor/predictor.py:19-35 | for `0, 2, 5, abc, 3.5, -1` the latest version is 5 and the next is 6 |
| `Scenarios.CanonicalName` | sensor/predictor.py:27-35 | a lone `007` is version 7, rendered `7` |
| `Scenarios.NegativeVersion` | sensor/predictor.py:68-77 | a lone `-5` is a version, so the next allocation is `-4` |
| `Scenarios.FirstSave` | sensor/components/model_pusher.py:78-87 | on an empty default registry the model reader first fails with its not-available error; the first triple is the three files of `saved_models/0`, and the model reader then returns `saved_models/0/model.pkl` |
| `Scenarios.TwoSingleSaves` | sensor/predictor.py:104-122 | a model save followed by a transformer save lands in directories n and n + 1 |

## Left out

- The filesystem is the listing `entries`, given to the constructor. `os.makedirs` on the root does not change that listing. Filesystem errors (permission, disk full) are not modelled. The `except Exception as e: raise e` wrappers re-raise unchanged, so they add nothing.
- `os.listdir` also lists plain files. The model, like the code, treats every listed name the same.
- `int()` is modelled on plain ASCII signed decimals only. Surrounding whitespace, `_` digit separators and non-ASCII digits, which Python also accepts, are not modelled.
- `Paths.Join` always inserts one `/`. `os.path.join` omits it after an empty directory or one ending in `/`, and restarts at an absolute second component. `Paths.Dirname` does not strip repeated trailing separators as `posixpath.dirname` does, and where everything before the last separator is separators (`/a`) it gives `""` where Python keeps `/`. For a root that is non-empty and does not end in `/`, the resolver's own paths `<root>/<n>` and `<root>/<n>/<file>` never reach these cases.
- The three file-name constants come from `sensor/entity/config_entity.py`, which is not part of this model. The model uses `transformer.pkl`, `model.pkl` and `target_encoder.pkl`. The proofs rely only on their being distinct, non-empty and free of `/`.
- `get_latest_save_paths` returns a dictionary with string keys. The model returns a `SavePaths` record with one field per key.
- Concurrent writers, and the race between two allocations, are not modelled. The model is single-threaded.
- The `Predictor` class (an empty shell), the model pusher, batch prediction, the data dump, `test.py` and `main.py` are not part of this model. They are I/O glue around the resolver.
