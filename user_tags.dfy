/**
 * The `tags` column of a user (src/services/user.service.ts), read in
 * the same way by the user-info, user-list and user-detail queries: a
 * JSON array when it parses as one, otherwise a comma-separated list.
 */
module UserTags {
  import opened Wrappers
  import opened JsStrings

  /** `.map(tag => tag.trim())`. */
  function TrimAll(parts: seq<string>): (r: seq<string>)
    ensures |r| == |parts| && forall k | 0 <= k < |r| :: r[k] == Trim(parts[k])
  {
    seq(|parts|, k requires 0 <= k < |parts| => Trim(parts[k]))
  }

  /** `.filter(tag => tag)`: the non-empty pieces, in order. */
  function NonEmpty(parts: seq<string>): seq<string>
  {
    if parts == [] then []
    else if parts[0] == "" then NonEmpty(parts[1..])
    else [parts[0]] + NonEmpty(parts[1..])
  }

  /** The filter only keeps non-empty pieces it was given. */
  lemma {:induction false} NonEmptyFrom(parts: seq<string>)
    ensures forall k | 0 <= k < |NonEmpty(parts)| :: NonEmpty(parts)[k] in parts && NonEmpty(parts)[k] != ""
  {
    if parts != [] {
      NonEmptyFrom(parts[1..]);
      var rest := NonEmpty(parts[1..]);
      assert forall k | 0 <= k < |rest| :: rest[k] in parts && rest[k] != "";
    }
  }

  /** The filter keeps every non-empty piece. */
  lemma {:induction false} NonEmptyKeeps(parts: seq<string>, x: string)
    requires x in parts && x != ""
    ensures x in NonEmpty(parts)
  {
    if parts[0] != x {
      NonEmptyKeeps(parts[1..], x);
    }
  }

  /** Filtering distributes over concatenation, so it keeps the order of the pieces. */
  lemma {:induction false} NonEmptyAppend(a: seq<string>, b: seq<string>)
    ensures NonEmpty(a + b) == NonEmpty(a) + NonEmpty(b)
  {
    if a == [] {
      assert a + b == b;
    } else {
      NonEmptyAppend(a[1..], b);
      var ab := a + b;
      assert ab[0] == a[0] && ab[1..] == a[1..] + b;
      if a[0] != "" {
        calc {
          NonEmpty(ab);
          [a[0]] + NonEmpty(a[1..] + b);
          [a[0]] + (NonEmpty(a[1..]) + NonEmpty(b));
          ([a[0]] + NonEmpty(a[1..])) + NonEmpty(b);
        }
      }
    }
  }

  /** Pieces that are all non-empty pass the filter unchanged. */
  lemma {:induction false} NonEmptyIdentity(parts: seq<string>)
    requires forall k | 0 <= k < |parts| :: parts[k] != ""
    ensures NonEmpty(parts) == parts
  {
    if parts != [] {
      NonEmptyIdentity(parts[1..]);
      assert [parts[0]] + parts[1..] == parts;
    }
  }

  /** A tag as the fallback produces it: non-empty, trimmed, comma-free. */
  predicate CleanTag(t: string) {
    t != "" && Trim(t) == t && ',' !in t
  }

  /** The comma fallback: split on ',', trim each piece, drop the empty ones. */
  function SplitTags(tags: string): seq<string> {
    NonEmpty(TrimAll(Split(tags, ',')))
  }

  /**
   * The tags of a user. `parsed` is the outcome of `JSON.parse(tags)`:
   * the array it yields, or `None` when it throws. Absent or empty tags
   * give no tags at all.
   */
  function ParseTags(tags: string, parsed: Option<seq<string>>): (r: seq<string>)
    ensures tags == "" ==> r == []
    ensures tags != "" && parsed.Some? ==> r == parsed.value
    ensures tags != "" && parsed.None? ==> r == SplitTags(tags)
  {
    if tags == "" then []
    else if parsed.Some? then parsed.value
    else SplitTags(tags)
  }

  /** Trimmed pieces of a split are trimmed and free of the separator. */
  lemma TrimmedPiecesClean(pieces: seq<string>)
    requires forall k | 0 <= k < |pieces| :: ',' !in pieces[k]
    ensures forall k | 0 <= k < |TrimAll(pieces)| ::
      Trim(TrimAll(pieces)[k]) == TrimAll(pieces)[k] && ',' !in TrimAll(pieces)[k]
  {
    forall k | 0 <= k < |pieces|
      ensures Trim(Trim(pieces[k])) == Trim(pieces[k]) && ',' !in Trim(pieces[k])
    {
      TrimIdempotent(pieces[k]);
      TrimKeepsAbsent(pieces[k], ',');
    }
  }

  /** Every tag the fallback yields is non-empty, trimmed and free of commas. */
  lemma SplitTagsClean(tags: string)
    ensures forall k | 0 <= k < |SplitTags(tags)| :: CleanTag(SplitTags(tags)[k])
  {
    var trimmed := TrimAll(Split(tags, ','));
    TrimmedPiecesClean(Split(tags, ','));
    var r := NonEmpty(trimmed);
    NonEmptyFrom(trimmed);
    forall k | 0 <= k < |r|
      ensures CleanTag(r[k])
    {
      var j :| 0 <= j < |trimmed| && trimmed[j] == r[k];
    }
  }

  /** A non-blank piece between commas is among the tags, trimmed. */
  lemma SplitTagsKeepsPiece(tags: string, k: nat)
    requires k < |Split(tags, ',')| && Trim(Split(tags, ',')[k]) != ""
    ensures Trim(Split(tags, ',')[k]) in SplitTags(tags)
  {
    NonEmptyKeeps(TrimAll(Split(tags, ',')), Trim(Split(tags, ',')[k]));
  }

  /**
   * The fallback reads a leading comma-free piece, then the rest: the
   * pieces keep their order, and a blank one is skipped.
   */
  lemma SplitTagsKeepsOrder(a: string, b: string)
    requires ',' !in a
    ensures SplitTags(a + [','] + b) == (if Trim(a) == "" then [] else [Trim(a)]) + SplitTags(b)
  {
    SplitAfterPiece(a, ',', b);
    TrimAllAppend([a], Split(b, ','));
    NonEmptyAppend([Trim(a)], TrimAll(Split(b, ',')));
    assert NonEmpty([Trim(a)]) == (if Trim(a) == "" then [] else [Trim(a)]) by {
      assert [Trim(a)][1..] == [];
    }
  }

  lemma TrimAllAppend(a: seq<string>, b: seq<string>)
    ensures TrimAll(a + b) == TrimAll(a) + TrimAll(b)
  {
  }

  /**
   * A list of clean tags stored comma-separated rather than as JSON reads
   * back as the same list, provided `JSON.parse` rejects the joined text
   * (the parse result `None`).
   */
  lemma CommaListRoundTrip(list: seq<string>)
    requires |list| >= 1
    requires forall k | 0 <= k < |list| :: CleanTag(list[k])
    ensures ParseTags(Join(list, ','), None) == list
  {
    SplitJoin(list, ',');
    assert TrimAll(list) == list;
    NonEmptyIdentity(list);
    JoinLength(list, ',');
  }

  lemma {:induction false} JoinLength(parts: seq<string>, sep: char)
    requires |parts| >= 1
    ensures |Join(parts, sep)| >= |parts[0]|
  {
  }
}
