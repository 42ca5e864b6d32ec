/** Snippet metadata: the required-field check every saving handler runs first, and the
    two-state publication status. */
module SnippetMeta {
  import opened Php
  import opened Errors

  /** The metadata array of a snippet (`name`, `status`, `type`, and whatever else the
      caller sends), with every value taken as a string. */
  type Meta = map<string, string>

  /** `$meta[$key]`: null when the key is absent. */
  function Get(meta: Meta, key: string): Option<string>
  {
    if key in meta then Some(meta[key]) else None
  }

  /** `empty($meta[$key])`. */
  predicate IsEmpty(meta: Meta, key: string)
  {
    Falsy(Get(meta, key))
  }

  /** The keys the validator requires, in the order it checks them. */
  const Required: seq<string> := ["name", "status", "type"]

  /** The position of the first key of `keys` whose value is empty, or `|keys|` when
      none is. */
  function FirstEmptyIndex(keys: seq<string>, meta: Meta): (i: nat)
    ensures i <= |keys|
    ensures forall j :: 0 <= j < i ==> !IsEmpty(meta, keys[j])
    ensures i < |keys| ==> IsEmpty(meta, keys[i])
  {
    if keys == [] then 0
    else if IsEmpty(meta, keys[0]) then 0
    else 1 + FirstEmptyIndex(keys[1..], meta)
  }

  /** What `validateMeta` decides: no error exactly when name, status and type are all
      non-empty; otherwise `invalid_meta` naming the first empty one in that order. */
  function MetaError(meta: Meta): (r: Option<Error>)
    ensures r.None? <==> forall j :: 0 <= j < |Required| ==> !IsEmpty(meta, Required[j])
    ensures r.Some? ==> exists i :: 0 <= i < |Required| && r.value == InvalidMeta(Required[i])
                          && IsEmpty(meta, Required[i])
                          && forall j :: 0 <= j < i ==> !IsEmpty(meta, Required[j])
  {
    var i := FirstEmptyIndex(Required, meta);
    if i < |Required| then Some(InvalidMeta(Required[i])) else None
  }

  /** `validateMeta`: scan the required keys in order and stop at the first empty one. */
  method ValidateMeta(meta: Meta) returns (r: Option<Error>)
    ensures r == MetaError(meta)
  {
    var i := 0;
    while i < |Required|
      invariant 0 <= i <= |Required|
      invariant forall j :: 0 <= j < i ==> !IsEmpty(meta, Required[j])
    {
      if IsEmpty(meta, Required[i]) {
        return Some(InvalidMeta(Required[i]));
      }
      i := i + 1;
    }
    return None;
  }

  /** The three fixed outcomes of the check, one per required key. */
  lemma MetaErrorNamesFirstEmptyKey(meta: Meta)
    ensures IsEmpty(meta, "name") ==> MetaError(meta) == Some(InvalidMeta("name"))
    ensures (!IsEmpty(meta, "name") && IsEmpty(meta, "status"))
              ==> MetaError(meta) == Some(InvalidMeta("status"))
    ensures (!IsEmpty(meta, "name") && !IsEmpty(meta, "status") && IsEmpty(meta, "type"))
              ==> MetaError(meta) == Some(InvalidMeta("type"))
  {
    assert Required[0] == "name" && Required[1] == "status" && Required[2] == "type";
  }

  /** Replacing the status by a non-empty value keeps valid metadata valid. */
  lemma MetaErrorAfterStatusChange(meta: Meta, status: string)
    requires MetaError(meta).None?
    requires !Falsy(Some(status))
    ensures MetaError(meta["status" := status]).None?
  {
    var m := meta["status" := status];
    assert Required[0] == "name" && Required[1] == "status" && Required[2] == "type";
    forall j | 0 <= j < |Required| ensures !IsEmpty(m, Required[j]) {
      assert !IsEmpty(meta, Required[j]);
    }
  }

  /** The value of `$meta['type']`, with an absent key read as "" (null never equals "PHP"). */
  function TypeOf(meta: Meta): string
  {
    if "type" in meta then meta["type"] else ""
  }

  const Draft: string := "draft"
  const Published: string := "published"

  /** The status update's whitelist: anything but exactly "published" becomes "draft". */
  function NormalizeStatus(status: string): (r: string)
    ensures r == Draft || r == Published
    ensures r == Published <==> status == Published
  {
    if status != Published then Draft else status
  }

  /** Normalising is idempotent: both states are fixed points, so the status-update
      handler always leaves draft or published (update stores the caller's status as sent). */
  lemma NormalizeStatusIdempotent(status: string)
    ensures NormalizeStatus(NormalizeStatus(status)) == NormalizeStatus(status)
    ensures !Falsy(Some(NormalizeStatus(status)))
  {
  }
}
