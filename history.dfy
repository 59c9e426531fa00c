/** The list edits App.tsx performs on `state.history`, and its storage format:
    newest first, capped at `Capacity` on insert and on write. */
module History {
  import opened Wrappers
  import opened Types

  /** The cap used both when inserting and when writing to storage. */
  const Capacity: nat := 30

  function Min(a: int, b: int): int {
    if a <= b then a else b
  }

  /** JavaScript's `s.slice(0, n)`. */
  function Take<T>(s: seq<T>, n: nat): (r: seq<T>)
    ensures |r| == Min(|s|, n)
    ensures r == s[..|r|]
  {
    if |s| <= n then s else s[..n]
  }

  /** `[item, ...h].slice(0, 30)`: the new entry becomes the head and the old
      entries follow in their old order, the oldest ones beyond the cap dropped. */
  function Insert(h: seq<HistoryItem>, item: HistoryItem): (r: seq<HistoryItem>)
    ensures |r| == Min(|h| + 1, Capacity)
    ensures r[0] == item
    ensures r[1..] == h[..|r| - 1]
  {
    Take([item] + h, Capacity)
  }

  /** What the persistence effect writes: the first 30 entries. */
  function Persist(h: seq<HistoryItem>): (r: seq<HistoryItem>)
    ensures |r| == Min(|h|, Capacity) && r == h[..|r|]
    ensures |h| <= Capacity ==> r == h
  {
    Take(h, Capacity)
  }

  /** What `JSON.parse` of the stored text yields: it throws, it gives a value
      that is not an array, or it gives an array (cast to history items unchecked). */
  datatype Parsed = ParseError | NotAnArray | AnArray(items: seq<HistoryItem>)

  /** The mount effect: an absent or empty stored text (falsy), a parse error
      and a non-array all leave `current` in place; an array replaces it. */
  function Load(saved: Option<string>, parse: string -> Parsed, current: seq<HistoryItem>): (r: seq<HistoryItem>)
    ensures saved.Some? && saved.value != "" && parse(saved.value).AnArray? ==> r == parse(saved.value).items
    ensures saved.None? || saved.value == "" || !parse(saved.value).AnArray? ==> r == current
  {
    match saved
    case None => current
    case Some(text) =>
      if text == "" then current
      else match parse(text)
        case AnArray(items) => items
        case _ => current
  }

  /** Writing and reading back: when `parse` inverts `stringify` (and the JSON
      text of an array is never empty), loading what was persisted yields
      exactly the first `min(|h|, 30)` entries of `h`, in order. */
  lemma LoadAfterPersist(h: seq<HistoryItem>, stringify: seq<HistoryItem> -> string, parse: string -> Parsed)
    requires forall xs :: parse(stringify(xs)) == AnArray(xs)
    requires forall xs :: stringify(xs) != ""
    ensures Load(Some(stringify(Persist(h))), parse, []) == h[..Min(|h|, Capacity)]
  {
    assert parse(stringify(Persist(h))) == AnArray(Persist(h));
  }

  /** `h.filter(x => x.id !== id)`. */
  function Delete(h: seq<HistoryItem>, id: string): (r: seq<HistoryItem>)
    ensures |r| <= |h|
    ensures forall x :: x in r <==> x in h && x.id != id
    ensures (forall x :: x in h ==> x.id != id) ==> r == h
    decreases |h|
  {
    if h == [] then []
    else if h[0].id == id then Delete(h[1..], id)
    else [h[0]] + Delete(h[1..], id)
  }

  /** Deleting keeps the order of what remains: it acts on each part of a
      list separately. */
  lemma {:induction false} DeleteAppend(a: seq<HistoryItem>, b: seq<HistoryItem>, id: string)
    ensures Delete(a + b, id) == Delete(a, id) + Delete(b, id)
    decreases |a|
  {
    if a == [] {
      assert a + b == b;
    } else {
      assert (a + b)[0] == a[0];
      assert (a + b)[1..] == a[1..] + b;
      DeleteAppend(a[1..], b, id);
    }
  }

  /** Deleting twice is deleting once. */
  lemma DeleteIdempotent(h: seq<HistoryItem>, id: string)
    ensures Delete(Delete(h, id), id) == Delete(h, id)
  {
  }

  /** `h.map(x => x.image === image ? { ...x, result: updated } : x)`. */
  function UpdateByImage(h: seq<HistoryItem>, image: string, updated: AnalysisResult): (r: seq<HistoryItem>)
    ensures |r| == |h|
    ensures forall i :: 0 <= i < |h| && h[i].image == image ==> r[i] == h[i].(result := updated)
    ensures forall i :: 0 <= i < |h| && h[i].image != image ==> r[i] == h[i]
    decreases |h|
  {
    if h == [] then []
    else [if h[0].image == image then h[0].(result := updated) else h[0]] + UpdateByImage(h[1..], image, updated)
  }

  /** Updating then persisting writes the same as persisting the updated prefix. */
  lemma PersistUpdateByImage(h: seq<HistoryItem>, image: string, updated: AnalysisResult)
    ensures Persist(UpdateByImage(h, image, updated)) == UpdateByImage(Persist(h), image, updated)
  {
  }

  function Reverse<T>(s: seq<T>): (r: seq<T>)
    ensures |r| == |s|
    ensures forall i :: 0 <= i < |s| ==> r[i] == s[|s| - 1 - i]
  {
    if s == [] then [] else Reverse(s[1..]) + [s[0]]
  }

  /** Inserting the entries of `items` one after the other. */
  function InsertAll(h: seq<HistoryItem>, items: seq<HistoryItem>): seq<HistoryItem>
    decreases |items|
  {
    if items == [] then h else InsertAll(Insert(h, items[0]), items[1..])
  }

  lemma TakeAbsorbs<T>(p: seq<T>, q: seq<T>, n: nat)
    ensures Take(p + Take(q, n), n) == Take(p + q, n)
  {
    if |q| > n {
      assert (p + q[..n])[..n] == (p + q)[..n];
    }
  }

  /** Any sequence of inserts leaves the newest entries first, capped at 30,
      followed by the surviving old entries. (With no insert at all a list
      longer than the cap stays as it is.) */
  lemma {:induction false} InsertAllNewestFirst(h: seq<HistoryItem>, items: seq<HistoryItem>)
    requires items != [] || |h| <= Capacity
    ensures InsertAll(h, items) == Take(Reverse(items) + h, Capacity)
    decreases |items|
  {
    if items == [] {
      assert Reverse(items) + h == h;
    } else {
      var a, rest := items[0], items[1..];
      assert |Insert(h, a)| <= Capacity;
      InsertAllNewestFirst(Insert(h, a), rest);
      TakeAbsorbs(Reverse(rest), [a] + h, Capacity);
      assert Reverse(items) == Reverse(rest) + [a];
      assert Reverse(rest) + ([a] + h) == Reverse(items) + h;
    }
  }

  /** Inserting at least 30 entries into any history keeps exactly 30: the
      newest 30, newest first (35 inserts into an empty cache discard the
      oldest 5). */
  lemma CapacityAfterInserts(h: seq<HistoryItem>, items: seq<HistoryItem>)
    requires |items| >= Capacity
    ensures |InsertAll(h, items)| == Capacity
    ensures forall i :: 0 <= i < Capacity ==> InsertAll(h, items)[i] == items[|items| - 1 - i]
  {
    InsertAllNewestFirst(h, items);
  }
}
