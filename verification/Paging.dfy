/** Asset discovery in pages, by a cursor that the caller passes back. */
module Paging {
  import opened Lists

  /** The cursor text as int() reads it. */
  datatype Cursor = NoCursor | Unreadable | At(index: int)

  datatype Page<T> = Page(items: seq<T>, next: Cursor)

  function Start(cursor: Cursor): nat {
    match cursor
    case At(index) => if index > 0 then index else 0
    case _ => 0
  }

  /** items[from:to] in Python, which never fails. */
  function Slice<T>(items: seq<T>, from: nat, to: nat): seq<T> {
    if from >= |items| || to <= from then [] else if to < |items| then items[from..to] else items[from..]
  }

  /** The S3 handler: the next index is counted from the items selected. */
  function BucketPage<T>(items: seq<T>, cursor: Cursor, size: nat): Page<T> {
    var start := Start(cursor);
    var selected := Slice(items, start, start + size);
    var next := start + |selected|;
    Page(selected, if next < |items| then At(next) else NoCursor)
  }

  /** The filesystem handler: the next index is the end of the slice. */
  function FolderPage<T>(items: seq<T>, cursor: Cursor, size: nat): Page<T> {
    var offset := Start(cursor);
    Page(Slice(items, offset, offset + size), if offset + size < |items| then At(offset + size) else NoCursor)
  }

  /** The limit of a request; 0 also stands for none. The filesystem handler has no upper bound. */
  function FolderLimit(limit: int): (r: nat)
    ensures r >= 1
  {
    if limit == 0 then 100 else if limit < 1 then 1 else limit
  }

  function BucketLimit(limit: int): (r: nat)
    ensures 1 <= r <= 1000
  {
    if FolderLimit(limit) < 1000 then FolderLimit(limit) else 1000
  }

  /** Whatever the cursor, the two ways to cut a page give the same page and the same next cursor. */
  lemma SamePages<T>(items: seq<T>, cursor: Cursor, size: nat)
    requires size >= 1
    ensures BucketPage(items, cursor, size) == FolderPage(items, cursor, size)
  {
  }

  /** The pages that a caller sees who passes every next cursor back. */
  function Follow<T>(items: seq<T>, cursor: Cursor, size: nat): seq<seq<T>>
    requires size >= 1
    decreases |items| - Start(cursor)
  {
    var page := BucketPage(items, cursor, size);
    [page.items] + (if page.next == NoCursor then [] else Follow(items, page.next, size))
  }

  function Joined<T>(pages: seq<seq<T>>): seq<T> {
    if pages == [] then [] else pages[0] + Joined(pages[1..])
  }

  lemma JoinedHead<T>(page: seq<T>, rest: seq<seq<T>>)
    ensures Joined([page] + rest) == page + Joined(rest)
  {
    assert ([page] + rest)[1..] == rest;
  }

  /** A page that is not the last is cut off at the size, and the next one starts there. */
  lemma PageCut<T>(items: seq<T>, cursor: Cursor, size: nat)
    requires size >= 1
    ensures var page, start := BucketPage(items, cursor, size), Start(cursor);
            if start + size < |items|
            then page == Page(items[start..start + size], At(start + size))
            else page == Page(if start < |items| then items[start..] else [], NoCursor)
  {
  }

  lemma FromOn<T>(items: seq<T>, from: nat, to: nat)
    requires from <= to <= |items|
    ensures items[from..to] + items[to..] == items[from..]
  {
  }

  /** From any cursor, the pages joined are the items from there on: none repeated, none skipped. */
  lemma {:induction false} PagesJoin<T>(items: seq<T>, cursor: Cursor, size: nat)
    requires size >= 1
    ensures Joined(Follow(items, cursor, size)) == if Start(cursor) < |items| then items[Start(cursor)..] else []
    decreases |items| - Start(cursor)
  {
    var page, start := BucketPage(items, cursor, size), Start(cursor);
    PageCut(items, cursor, size);
    if start + size < |items| {
      PagesJoin(items, page.next, size);
      JoinedHead(page.items, Follow(items, page.next, size));
      FromOn(items, start, start + size);
    } else {
      JoinedHead(page.items, []);
    }
  }

  /** A missing, unreadable, zero or negative cursor starts at the front, and one past the end finds nothing. */
  lemma PagesFrom<T>(items: seq<T>, cursor: Cursor, size: nat)
    requires size >= 1
    ensures var joined := Joined(Follow(items, cursor, size));
            match cursor
            case At(i) => joined == if i <= 0 then items else if i <= |items| then items[i..] else []
            case _ => joined == items
  {
    PagesJoin(items, cursor, size);
  }

  /** Every page but the last is full, and the last holds the rest. */
  lemma {:induction false} PagesAreFull<T>(items: seq<T>, cursor: Cursor, size: nat)
    requires size >= 1
    ensures var pages := Follow(items, cursor, size);
            && pages != [] && (forall k :: 0 <= k < |pages| - 1 ==> |pages[k]| == size)
            && |pages[|pages| - 1]| <= size && (|pages| > 1 ==> pages[|pages| - 1] != [])
    decreases |items| - Start(cursor)
  {
    var page, pages := BucketPage(items, cursor, size), Follow(items, cursor, size);
    if page.next != NoCursor {
      PagesAreFull(items, page.next, size);
      var rest := Follow(items, page.next, size);
      assert pages == [page.items] + rest;
      assert |rest| == 1 ==> rest[0] == BucketPage(items, page.next, size).items != [];
    }
  }

  function Least(a: nat, b: nat): nat {
    if a < b then a else b
  }

  /** The first page: 100 assets by default, at least one, and for buckets at most 1000. */
  lemma FirstPageSizes<T>(items: seq<T>, limit: int)
    ensures var folder, bucket := FolderPage(items, NoCursor, FolderLimit(limit)), BucketPage(items, NoCursor, BucketLimit(limit));
            && folder.items <= items && bucket.items <= items
            && (limit == 0 ==> |folder.items| == |bucket.items| == Least(100, |items|))
            && (limit < 0 ==> |folder.items| == |bucket.items| == Least(1, |items|))
            && (limit > 0 ==> |folder.items| == Least(limit, |items|))
            && (limit > 0 ==> |bucket.items| == Least(Least(limit, 1000), |items|))
  {
  }

  function Other<T(==)>(first: T): T -> bool {
    x => x != first
  }

  /** The inventory with the configured bucket moved to, or put at, the front. */
  function ConfiguredFirst<T(==, !new)>(buckets: seq<T>, configured: T): seq<T> {
    [configured] + Filter(buckets, Other(configured))
  }

  /** The pages together list the configured bucket first, and every bucket exactly once. */
  lemma BucketsListedOnce<T(!new)>(buckets: seq<T>, configured: T, limit: int, bucket: T)
    requires NoRepeats(buckets)
    ensures var listed := Joined(Follow(ConfiguredFirst(buckets, configured), NoCursor, BucketLimit(limit)));
            && listed != [] && listed[0] == configured && NoRepeats(listed)
            && (bucket in listed <==> bucket in buckets || bucket == configured)
  {
    var arranged := ConfiguredFirst(buckets, configured);
    PagesJoin(arranged, NoCursor, BucketLimit(limit));
    FilterHas(buckets, Other(configured));
    FilterNoRepeats(buckets, Other(configured));
    NoRepeatsConcat([configured], Filter(buckets, Other(configured)));
  }
}
