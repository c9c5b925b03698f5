/** Invalidation events: validation, and rewriting of the legacy form. */
module Events {

  const MAX_TAG_LENGTH: nat := 256
  const MAX_KEY_LENGTH: nat := 4096
  const MAX_EVENT_TARGETS: nat := 1000

  const TYPE_INVALIDATE: string := "invalidate"
  const TYPE_BOOK_UPDATED: string := "book.updated"

  /** An event as received. */
  datatype Raw = Raw(id: string, kind: string, tags: seq<string>, keys: seq<string>, bookId: string, version: int)

  /** An event after validation. */
  datatype Event = Event(id: string, tags: seq<string>, keys: seq<string>, version: nat)

  datatype Error =
    | BookIdRequired | BookIdNotAllowed | UnknownType | NegativeVersion
    | NoTargets | TooManyTargets | InvalidTag | InvalidKey

  datatype Result<+T> = Ok(value: T) | Err(error: Error)

  /** Which characters outside the listed punctuation are letters or digits is left to the caller. */
  predicate ValidTag(tag: string, letterOrDigit: char -> bool) {
    && tag != "" && |tag| <= MAX_TAG_LENGTH
    && forall i :: 0 <= i < |tag| ==> letterOrDigit(tag[i]) || tag[i] in ":_-./@+="
  }

  predicate ValidKey(key: string) {
    key != "" && |key| <= MAX_KEY_LENGTH
  }

  function Check(id: string, tags: seq<string>, keys: seq<string>, version: int,
                 letterOrDigit: char -> bool): Result<Event> {
    if version < 0 then Err(NegativeVersion)
    else if |tags| + |keys| == 0 then Err(NoTargets)
    else if |tags| + |keys| > MAX_EVENT_TARGETS then Err(TooManyTargets)
    else if exists i :: 0 <= i < |tags| && !ValidTag(tags[i], letterOrDigit) then Err(InvalidTag)
    else if exists i :: 0 <= i < |keys| && !ValidKey(keys[i]) then Err(InvalidKey)
    else Ok(Event(id, tags, keys, version))
  }

  function Normalize(evt: Raw, letterOrDigit: char -> bool): Result<Event> {
    if evt.kind == TYPE_BOOK_UPDATED then
      if evt.bookId == "" then Err(BookIdRequired)
      else Check(evt.id, evt.tags + ["book:" + evt.bookId], evt.keys, evt.version, letterOrDigit)
    else if evt.kind == TYPE_INVALIDATE then
      if evt.bookId != "" then Err(BookIdNotAllowed)
      else Check(evt.id, evt.tags, evt.keys, evt.version, letterOrDigit)
    else Err(UnknownType)
  }

  function Encoded(e: Event): Raw {
    Raw(e.id, TYPE_INVALIDATE, e.tags, e.keys, "", e.version)
  }

  predicate Valid(e: Event, letterOrDigit: char -> bool) {
    && 0 < |e.tags| + |e.keys| <= MAX_EVENT_TARGETS
    && (forall i :: 0 <= i < |e.tags| ==> ValidTag(e.tags[i], letterOrDigit))
    && (forall i :: 0 <= i < |e.keys| ==> ValidKey(e.keys[i]))
  }

  /** What validation accepts it accepts again unchanged: on the way into the log, on replay, from
      the queue and in the handler the same event comes out. */
  lemma NormalizeTwice(evt: Raw, letterOrDigit: char -> bool)
    requires Normalize(evt, letterOrDigit).Ok?
    ensures var e := Normalize(evt, letterOrDigit).value;
            && Valid(e, letterOrDigit)
            && Normalize(Encoded(e), letterOrDigit) == Ok(e)
            && e.id == evt.id && e.version == evt.version && e.keys == evt.keys
            && (evt.kind == TYPE_BOOK_UPDATED ==> e.tags == evt.tags + ["book:" + evt.bookId])
            && (evt.kind == TYPE_INVALIDATE ==> e.tags == evt.tags)
  {
  }

  /** The accepted new-form events are exactly those with no book, no negative version, between 1 and 1000
      tags and keys, tags of at most 256 letters, digits and ":_-./@+=", and keys of at most 4096. */
  lemma AcceptedIffValid(evt: Raw, letterOrDigit: char -> bool)
    requires evt.kind == TYPE_INVALIDATE
    ensures Normalize(evt, letterOrDigit).Ok? <==>
              && evt.bookId == "" && evt.version >= 0 && 1 <= |evt.tags| + |evt.keys| <= 1000
              && (forall i :: 0 <= i < |evt.tags| ==>
                    && 1 <= |evt.tags[i]| <= 256
                    && forall j :: 0 <= j < |evt.tags[i]| ==>
                         letterOrDigit(evt.tags[i][j]) || evt.tags[i][j] in ":_-./@+=")
              && (forall i :: 0 <= i < |evt.keys| ==> 1 <= |evt.keys[i]| <= 4096)
  {
  }

  /** No accepted tag can collide with the private tag of a cache key, which starts with NUL. */
  lemma NoAcceptedTagIsPrivate(tag: string, key: string, letterOrDigit: char -> bool)
    requires ValidTag(tag, letterOrDigit) && !letterOrDigit('\0')
    ensures tag != "\0key:" + key
  {
    assert ("\0key:" + key)[0] == '\0';
    assert tag[0] != '\0';
  }
}
