/** The snippets REST controller: six request handlers over a store of snippets kept by
    file name, and the log of lifecycle events they fire. Request parsing and
    sanitisation happen before these handlers are entered; their arguments are the
    already sanitised values. */
module SnippetsController {
  import opened Php
  import opened Errors
  import opened SnippetMeta
  import opened PhpTags

  /** A stored snippet: its code (in storage form) and its metadata. */
  datatype Snippet = Snippet(code: string, meta: Meta)

  /** The snippet the lookup handler returns: its bare file name and its wire-form code. */
  datatype SnippetView = SnippetView(fileName: string, code: string, meta: Meta)

  /** The reply of create and update: the saved snippet's file name and a message. */
  datatype Saved = Saved(fileName: string, message: string)

  /** The reply of the status update: the snippet as it now stands, and a message. */
  datatype StatusReply = StatusReply(snippet: Snippet, message: string)

  /** A lifecycle action fired after a state change, with the file name it concerns.
      Each constructor stands for one hook: `fluent_snippets/snippet_created`,
      `fluent_snippets/snippet_updated`, `fluent_snippets/snippet_status_updated` and
      `fluent_snippets/snippet_deleted`. */
  datatype Event =
    | SnippetCreated(subject: string)
    | SnippetUpdated(subject: string)
    | SnippetStatusUpdated(subject: string)
    | SnippetDeleted(subject: string)

  const CreatedMessage: string := "Snippet created successfully"
  const UpdatedMessage: string := "Snippet updated successfully"
  const StatusUpdatedMessage: string := "Snippet status updated successfully"
  const DeletedMessage: string := "Snippet has been deleted successfully"

  /** What the handlers put in the store: metadata that passes the required-field check,
      and for PHP snippets code that carries the opening tag. */
  ghost predicate WellStored(s: Snippet)
  {
    MetaError(s.meta).None? && (TypeOf(s.meta) == "PHP" ==> StartsWith(s.code, OpenTag))
  }

  /** The listing handler's paging arguments after its defaults are applied. */
  datatype Paging = Paging(perPage: string, page: string, withTags: bool)

  /** `getSnippets`: a falsy `per_page` becomes 10 and a falsy `page` becomes 1; the tag
      set is requested when `with_tags` is truthy. */
  function ListPaging(perPage: Option<string>, page: Option<string>, withTags: Option<string>): (r: Paging)
    ensures Falsy(perPage) ==> r.perPage == "10"
    ensures !Falsy(perPage) ==> r.perPage == perPage.value
    ensures Falsy(page) ==> r.page == "1"
    ensures !Falsy(page) ==> r.page == page.value
    ensures r.withTags == !Falsy(withTags)
  {
    Paging(if Falsy(perPage) then "10" else perPage.value,
           if Falsy(page) then "1" else page.value,
           !Falsy(withTags))
  }

  /** The defaults leave nothing falsy, so applying them twice changes nothing. */
  lemma ListPagingIdempotent(perPage: Option<string>, page: Option<string>, withTags: Option<string>)
    ensures var r := ListPaging(perPage, page, withTags);
            !Falsy(Some(r.perPage)) && !Falsy(Some(r.page))
            && ListPaging(Some(r.perPage), Some(r.page), withTags) == r
  {
    var r := ListPaging(perPage, page, withTags);
    assert r.perPage != "" && r.perPage != "0" by {
      if Falsy(perPage) { assert r.perPage[0] == '1'; }
    }
    assert r.page != "" && r.page != "0" by {
      if Falsy(page) { assert r.page[0] == '1'; }
    }
  }

  /** The snippet store behind the handlers, with its collaborators. */
  class SnippetStore {
    /** The snippets, by file name. */
    var files: map<string, Snippet>
    /** The lifecycle events fired so far, oldest first. */
    var events: seq<Event>

    /** `Helper::validateCode(type, code)`: None when the code passes, else its error. */
    const validateCode: (string, string) -> Option<Error>
    /** The file name the persistence model derives for a new snippet's metadata. */
    const fileNameFor: Meta -> string
    /** The error the persistence model's lookup returns for a missing file name. */
    const notFound: string -> Error

    ghost predicate Valid()
      reads this
    {
      forall f :: f in files ==> WellStored(files[f])
    }

    constructor (validateCode: (string, string) -> Option<Error>,
                 fileNameFor: Meta -> string,
                 notFound: string -> Error)
      ensures Valid() && files == map[] && events == []
      ensures this.validateCode == validateCode && this.fileNameFor == fileNameFor
      ensures this.notFound == notFound
    {
      this.validateCode := validateCode;
      this.fileNameFor := fileNameFor;
      this.notFound := notFound;
      files := map[];
      events := [];
    }

    /** `findSnippet`: the lookup error verbatim, or the snippet with its file name and,
        for PHP, its code in wire form. */
    method Find(snippetName: string) returns (r: Result<SnippetView>)
      ensures snippetName !in files ==> r == Err(notFound(snippetName))
      ensures snippetName in files ==>
                var s := files[snippetName];
                r == Ok(SnippetView(snippetName, ReadForm(TypeOf(s.meta), s.code), s.meta))
    {
      if snippetName !in files {
        return Err(notFound(snippetName));
      }
      var snippet := files[snippetName];
      var code := snippet.code;
      if TypeOf(snippet.meta) == "PHP" {
        code := StripPhp(code);
      }
      return Ok(SnippetView(snippetName, code, snippet.meta));
    }

    /** `createSnippet`: metadata check, status forced to draft, PHP tag rejection and
        wrapping, code validation, then persistence and the created event. */
    method Create(meta: Meta, code: string) returns (r: Result<Saved>)
      requires Valid()
      modifies this
      ensures Valid()
      ensures var t := TypeOf(meta);
              var stored := StoreForm(t, code);
              var draft := meta["status" := Draft];
              if MetaError(meta).Some? then
                r == Err(MetaError(meta).value) && files == old(files) && events == old(events)
              else if t == "PHP" && StartsWith(code, OpenTag) then
                r == Err(InvalidCode) && files == old(files) && events == old(events)
              else if validateCode(t, stored).Some? then
                r == Err(validateCode(t, stored).value) && files == old(files) && events == old(events)
              else
                var name := fileNameFor(draft);
                && r == Ok(Saved(name, CreatedMessage))
                && files == old(files)[name := Snippet(stored, draft)]
                && events == old(events) + [SnippetCreated(name)]
    {
      var invalid := ValidateMeta(meta);
      if invalid.Some? {
        return Err(invalid.value);
      }
      var draft := meta["status" := Draft];
      var t := TypeOf(draft);
      assert t == TypeOf(meta);
      var stored := code;
      if t == "PHP" {
        if StartsWith(code, OpenTag) {
          return Err(InvalidCode);
        }
        stored := WrapPhp(code);
      }
      var verdict := validateCode(t, stored);
      if verdict.Some? {
        return Err(verdict.value);
      }
      MetaErrorAfterStatusChange(meta, Draft);
      var name := fileNameFor(draft);
      files := files[name := Snippet(stored, draft)];
      events := events + [SnippetCreated(name)];
      return Ok(Saved(name, CreatedMessage));
    }

    /** `updateSnippet`: metadata check, PHP wrapping (without create's tag rejection),
        code validation, then persistence under the given file name and the updated event. */
    method Update(fileName: string, meta: Meta, code: string) returns (r: Result<Saved>)
      requires Valid()
      modifies this
      ensures Valid()
      ensures var t := TypeOf(meta);
              var stored := StoreForm(t, code);
              if MetaError(meta).Some? then
                r == Err(MetaError(meta).value) && files == old(files) && events == old(events)
              else if validateCode(t, stored).Some? then
                r == Err(validateCode(t, stored).value) && files == old(files) && events == old(events)
              else
                && r == Ok(Saved(fileName, UpdatedMessage))
                && files == old(files)[fileName := Snippet(stored, meta)]
                && events == old(events) + [SnippetUpdated(fileName)]
    {
      var invalid := ValidateMeta(meta);
      if invalid.Some? {
        return Err(invalid.value);
      }
      var t := TypeOf(meta);
      var stored := code;
      if t == "PHP" {
        stored := WrapPhp(code);
      }
      var verdict := validateCode(t, stored);
      if verdict.Some? {
        return Err(verdict.value);
      }
      files := files[fileName := Snippet(stored, meta)];
      events := events + [SnippetUpdated(fileName)];
      return Ok(Saved(fileName, UpdatedMessage));
    }

    /** `updateSnippetStatus`: lookup first; then only `meta.status` changes, to the
        normalised status, and the status-updated and updated events fire in that order. */
    method UpdateStatus(fileName: string, status: string) returns (r: Result<StatusReply>)
      requires Valid()
      modifies this
      ensures Valid()
      ensures fileName !in old(files) ==>
                r == Err(notFound(fileName)) && files == old(files) && events == old(events)
      ensures fileName in old(files) ==>
                var s := old(files)[fileName];
                var s' := Snippet(s.code, s.meta["status" := NormalizeStatus(status)]);
                && r == Ok(StatusReply(s', StatusUpdatedMessage))
                && files == old(files)[fileName := s']
                && events == old(events) + [SnippetStatusUpdated(fileName), SnippetUpdated(fileName)]
    {
      if fileName !in files {
        return Err(notFound(fileName));
      }
      var snippet := files[fileName];
      var newStatus := NormalizeStatus(status);
      NormalizeStatusIdempotent(status);
      MetaErrorAfterStatusChange(snippet.meta, newStatus);
      snippet := snippet.(meta := snippet.meta["status" := newStatus]);
      assert TypeOf(snippet.meta) == TypeOf(files[fileName].meta);
      files := files[fileName := snippet];
      events := events + [SnippetStatusUpdated(fileName), SnippetUpdated(fileName)];
      return Ok(StatusReply(snippet, StatusUpdatedMessage));
    }

    /** `deleteSnippet`: lookup first; then the file is removed and the deleted event fires. */
    method Delete(fileName: string) returns (r: Result<string>)
      requires Valid()
      modifies this
      ensures Valid()
      ensures fileName !in old(files) ==>
                r == Err(notFound(fileName)) && files == old(files) && events == old(events)
      ensures fileName in old(files) ==>
                && r == Ok(DeletedMessage)
                && files == old(files) - {fileName}
                && events == old(events) + [SnippetDeleted(fileName)]
    {
      if fileName !in files {
        return Err(notFound(fileName));
      }
      files := files - {fileName};
      events := events + [SnippetDeleted(fileName)];
      return Ok(DeletedMessage);
    }
  }

  /** A PHP snippet created from code that neither starts with a line end nor ends in
      `?` or `>` reads back as exactly that code. */
  method CreateThenFind(store: SnippetStore, name: string, code: string)
    requires store.Valid()
    requires !StartsWith(code, OpenTag) && !StartsWith(code, EOL) && !EndsInCloseTagChar(code)
    modifies store
  {
    var meta := map["name" := name, "status" := Published, "type" := "PHP"];
    var created := store.Create(meta, code);
    if created.Ok? {
      var found := store.Find(created.value.fileName);
      StripWrapRoundTrip(code);
      assert found.Ok? && found.value.code == code;
      assert found.value.meta["status"] == Draft;
    }
  }

  /** Deleting or re-publishing a missing snippet returns the lookup's own error and
      leaves the store and the event log alone. */
  method MissingSnippet(store: SnippetStore, fileName: string)
    requires store.Valid() && fileName !in store.files
    modifies store
  {
    var found := store.Find(fileName);
    var deleted := store.Delete(fileName);
    var published := store.UpdateStatus(fileName, Published);
    assert deleted.Err? && published.Err? && deleted.error == found.error == published.error;
    assert store.files == old(store.files) && store.events == old(store.events);
  }

  /** A CSS snippet is stored as sent, whatever status the caller asks for becomes draft,
      and update, unlike create and the status update, keeps the caller's status as sent. */
  method CssScenario(store: SnippetStore)
    requires store.Valid()
    modifies store
  {
    var meta := map["name" := "x", "status" := "ignored", "type" := "CSS"];
    assert !IsEmpty(meta, "name") && !IsEmpty(meta, "status") && !IsEmpty(meta, "type");
    MetaErrorNamesFirstEmptyKey(meta);
    assert MetaError(meta).None? by {
      assert forall j :: 0 <= j < |Required| ==> !IsEmpty(meta, Required[j]);
    }
    var created := store.Create(meta, "body{}");
    if created.Ok? {
      var s := store.files[created.value.fileName];
      assert s.code == "body{}" && s.meta["status"] == Draft;
      var updated := store.Update(created.value.fileName, meta, "body{}");
      if updated.Ok? {
        assert store.files[created.value.fileName].meta["status"] == "ignored";
      }
    }
  }
}
