# Snippets controller model

A Dafny model of the REST controller of a WordPress code-snippets plugin. The controller
lists, reads, creates, updates, publishes or unpublishes, and deletes "snippets": small
PHP, CSS or JavaScript fragments. Each snippet is kept under a file name together with its
metadata (`name`, `status`, `type`, ...).

The model covers the controller's own logic:

- the required-metadata check, which reports the first empty key of `name`, `status`, `type`;
- the PHP opening-tag handling. Saving drops the trailing run of `?`/`>` characters and
  prepends `<?php` and a line end. Reading drops one leading `<?php` and then every
  leading line end.
- the status whitelist. Anything but exactly `published` becomes `draft`.
- the handlers' order of checks, the errors they return, the store changes they make and
  the lifecycle events they fire.

Files:

- `php.dfy` (module `Php`): the PHP built-ins the controller relies on. These are
  truthiness (`empty`), the anchored prefix match, and the character-set `rtrim`/`ltrim`.
  Each trim comes with a lemma saying its contract determines its result.
- `errors.dfy` (module `Errors`): the error value (code and message) and the handler
  result type.
- `meta.dfy` (module `SnippetMeta`): `validateMeta` and the status normalisation.
  `validateMeta` appears twice: as a method with the source's loop, and as the recursive
  function that specifies it.
- `tags.dfy` (module `PhpTags`): the storage and wire forms of PHP code and their
  round-trip lemmas.
- `controller.dfy` (module `SnippetsController`): the class `SnippetStore`. It holds the
  snippets as a map from file name to snippet and the fired events as a sequence. Each
  handler is a method whose postcondition gives the reply and the new store and log for
  every path. The invariant `Valid()` is kept by every handler: every stored snippet has
  valid metadata, and every stored PHP snippet begins with `<?php`. The module also
  defines the listing handler's paging defaults, and three client methods that derive
  behaviours from the handlers' contracts alone: the create-then-read round trip of a PHP
  snippet (`CreateThenFind`), the lookup error returned by read, delete and status update
  of a missing snippet (`MissingSnippet`), and the create and update of a CSS snippet
  (`CssScenario`).

Two behaviours of the code are easy to misread; the model follows the code:

- The lookup handler's comment at `SnippetsController.php:59` says it removes the new line
  "at the very first", but `ltrim($code, PHP_EOL)` at line 60 removes every leading line end.
- Stored status is not confined to `draft`/`published`. Create forces `draft` and the
  status update whitelists, but update stores whatever non-empty status the caller sends.
  `CssScenario` shows this.

## Model

| member | source | states |
|---|---|---|
| `Php.RTrim` | app/Http/Controllers/SnippetsController.php:89 | the result is a prefix of the input that does not end in a trimmed character, and every removed character is in the set (`rtrim` takes its second argument as a character set) |
| `Php.LTrim` | app/Http/Controllers/SnippetsController.php:60 | the result is a suffix of the input that does not start with a trimmed character, and every removed character is in the set |
| `Php.RTrimUnique` | app/Http/Controllers/SnippetsController.php:126 | any split into a front not ending in the set and a tail drawn from the set is exactly what rtrim returns |
| `Php.LTrimUnique` | app/Http/Controllers/SnippetsController.php:60 | any split into a head drawn from the set and a rest not starting with the set is exactly what ltrim returns |
| `Php.RTrimAppend` | app/Http/Controllers/SnippetsController.php:126 | rtrim of `p + x` leaves `p` intact when `p` is non-empty and ends outside the set |
| `Php.LTrimSkipsHead` | app/Http/Controllers/SnippetsController.php:60 | ltrim removes a leading line end and keeps going, so any number of them are removed |
| `SnippetMeta.FirstEmptyIndex` | app/Http/Controllers/SnippetsController.php:202-206 | the returned position is the first key whose value is empty; every earlier key is non-empty, and it equals the key count when none is empty |
| `SnippetMeta.MetaError` | app/Http/Controllers/SnippetsController.php:198-208 | no error exactly when name, status and type are all non-empty (not absent, not "", not "0"); otherwise `invalid_meta` "<key> is required" for the first empty key in that order |
| `SnippetMeta.ValidateMeta` | app/Http/Controllers/SnippetsController.php:198-209 | the source's early-return scan returns exactly the decision MetaError specifies |
| `SnippetMeta.MetaErrorNamesFirstEmptyKey` | app/Http/Controllers/SnippetsController.php:200-205 | an empty name is reported before status, and an empty status before type |
| `SnippetMeta.MetaErrorAfterStatusChange` | app/Http/Controllers/SnippetsController.php:165 | overwriting the status with a non-empty value keeps metadata valid |
| `SnippetMeta.NormalizeStatus` | app/Http/Controllers/SnippetsController.php:161-163 | the result is draft or published, and it is published exactly when the input is exactly "published" |
| `SnippetMeta.NormalizeStatusIdempotent` | app/Http/Controllers/SnippetsController.php:161-165 | normalising twice equals normalising once, and the result is never empty, so the status-update handler always leaves `draft` or `published` |
| `PhpTags.WrapPhp` | app/Http/Controllers/SnippetsController.php:89-90 | the stored code starts with `<?php` and a line end, followed by a prefix of the input; exactly the removed tail is made of `?`/`>`, and the result never ends in one |
| `PhpTags.StripPhp` | app/Http/Controllers/SnippetsController.php:56-61 | the result is a suffix of the stored code; what was removed is one leading `<?php`, if present, and then only line ends; the result never starts with a line end |
| `PhpTags.StoreForm` | app/Http/Controllers/SnippetsController.php:125-128 | PHP code is stored starting with `<?php`; code of any other type reaches the validator and the store unchanged |
| `PhpTags.ReadForm` | app/Http/Controllers/SnippetsController.php:56-61 | non-PHP code is returned unchanged; returned PHP code never starts with a line end |
| `PhpTags.StripAfterWrap` | app/Http/Controllers/SnippetsController.php:56-60 | reading back wrapped code yields the input with its trailing `?`/`>` run and then its leading line ends removed |
| `PhpTags.StripWrapRoundTrip` | app/Http/Controllers/SnippetsController.php:58-60 | strip(wrap(c)) == c if and only if c neither starts with a line end nor ends in `?` or `>` |
| `PhpTags.ReadAfterStore` | app/Http/Controllers/SnippetsController.php:84-91 | under the round-trip side conditions the read form undoes the store form for every type, and for non-PHP types it always does |
| `PhpTags.EchoRoundTrip` | app/Http/Controllers/SnippetsController.php:89-90 | `echo 1;` is stored as `<?php` + line end + `echo 1;` and read back as `echo 1;` |
| `PhpTags.TrimIsCharacterWise` | app/Http/Controllers/SnippetsController.php:89 | the trim removes a repeated `?>?>` and also the final `>` of trailing markup such as `<b>` |
| `PhpTags.UpdateDoublesTag` | app/Http/Controllers/SnippetsController.php:125-128 | update wraps code that already starts with `<?php` and a line end a second time, so the stored code carries the tag twice |
| `PhpTags.ReadOfDoubledTag` | app/Http/Controllers/SnippetsController.php:56-61 | reading such a doubly wrapped snippet back returns code that still starts with `<?php` and a line end |
| `SnippetsController.ListPaging` | app/Http/Controllers/SnippetsController.php:19-35 | a falsy `per_page` becomes 10 and a falsy `page` becomes 1, truthy values pass through, and tags are requested exactly when `with_tags` is truthy |
| `SnippetsController.ListPagingIdempotent` | app/Http/Controllers/SnippetsController.php:22-28 | the defaulted values are never falsy, so applying the defaults again changes nothing |
| `SnippetsController.SnippetStore.Find` | app/Http/Controllers/SnippetsController.php:43-66 | a missing file name returns the lookup error verbatim; otherwise the snippet comes back under its file name, with PHP code in read form and other code unchanged |
| `SnippetsController.SnippetStore.Create` | app/Http/Controllers/SnippetsController.php:69-109 | checks in this order, each returning before persistence with store and log unchanged: metadata (`invalid_meta`), PHP code starting with `<?php` (`invalid_code`), the code validator (its error verbatim); on success it stores the store form with status forced to draft and appends one created event; keeps `Valid()` |
| `SnippetsController.SnippetStore.Update` | app/Http/Controllers/SnippetsController.php:111-147 | metadata error, then validator error, each with store and log unchanged; otherwise it stores the store form (no tag rejection) with the caller's metadata as sent under the given file name, and appends one updated event; keeps `Valid()` |
| `SnippetsController.SnippetStore.UpdateStatus` | app/Http/Controllers/SnippetsController.php:149-176 | a missing file name returns the lookup error with store and log unchanged; otherwise only `meta.status` changes, to the normalised status, the code is kept, and status-updated then updated are appended |
| `SnippetsController.SnippetStore.Delete` | app/Http/Controllers/SnippetsController.php:178-196 | a missing file name returns the lookup error with store and log unchanged; otherwise exactly that file is removed and one deleted event is appended |

## Left out

- Request parameter extraction and sanitisation (`get_param`, `sanitize_text_field`, `sanitize_file_name`) are not modelled. The handlers take the already sanitised values as arguments.
- `__` (translation) is not modelled; the delete message is the untranslated text.
- `Helper::validateCode` is not part of this model. It is the store's function field `validateCode`: "none" means the code passes, otherwise it returns the error. Only the propagation of that error and the fact that it blocks persistence are modelled.
- The persistence model (`Snippet`) is not part of this model. Its file-backed storage is the `files` map.
- The persistence model's file-name derivation on create is not modelled. It is the function field `fileNameFor`, and a name that collides with an existing one overwrites it.
- The persistence model's not-found error is the function field `notFound`, because its code and message are not visible.
- SnippetStore.Update: what the persistence model's `updateSnippet` does with a file name that does not exist is not visible; the model inserts the snippet under that name.
- SnippetStore.Find: `basename($snippet['file'])` is modelled by the map key itself. Any other fields the model attaches to a snippet are not modelled.
- SnippetStore.Create: the model's return value is not visible, so the reply carries the file name instead of the created snippet.
- SnippetStore.Update: the reply carries the file name instead of the model's return value.
- Listing (`getIndexedSnippets`, `getAllSnippetTags`: search, type and tag filters, pagination, tag aggregation) is left out. Only the handler's own defaulting of `per_page`, `page` and `with_tags` is modelled.
- ListPaging: the defaults 10 and 1 are PHP integers; here they are the strings "10" and "1".
- Event payloads are reduced to the file name. The created and updated hooks actually receive whatever the persistence model returns.
- Hook dispatch (`do_action`) is modelled only as appending to the event log. No listeners are modelled.
- Metadata and parameter values are modelled as strings. PHP `empty` on integers, booleans, floats or arrays, and a `meta` parameter that is not an array, are not modelled.
- `PHP_EOL` is fixed to `"\n"`.
- Concurrent requests on the same file name are not handled at this layer and are not modelled.
