/** The rolling seen-window of the poll sources (`backend/app/ambient/sources.py`) and the column it is
  * stored in (`backend/app/models/ambient.py`).
  *
  * The window is compared with an independent description of what it should be:
  * the last `SEEN_CAP` keys of everything the watch has ever returned.
  */
module Sources {
  import opened Options

  const SEEN_CAP: nat := 100
  const MAX_ITEMS: nat := 20

  /** What the watermark column takes, in characters. */
  const COLUMN: nat := 255

  type Key = string

  /** The first sixteen hexadecimal digits of a SHA-256. */
  type Digest = d: string | |d| == 16 witness "0000000000000000"

  /** One polled item: the value of its id field, if it has one, and the digest of its content. */
  datatype Item = Item(id: Option<string>, digest: Digest)

  /** The stored watermark column. `Malformed` is any text that is not a JSON list. */
  datatype Watermark = Absent | Malformed | Keys(keys: seq<Key>)

  function ItemKey(item: Item): (k: Key)
    ensures k != ""
  {
    if item.id.Some? && item.id.value != "" then item.id.value else item.digest
  }

  function SeenKeys(w: Watermark): seq<Key> {
    if w.Keys? then w.keys else []
  }

  function KeysOf(items: seq<Item>): (keys: seq<Key>)
    ensures |keys| == |items|
    ensures forall i :: 0 <= i < |items| ==> keys[i] == ItemKey(items[i])
  {
    seq(|items|, i requires 0 <= i < |items| => ItemKey(items[i]))
  }

  function Fresh(items: seq<Item>, seen: seq<Key>): seq<Item> {
    if items == [] then []
    else
      var before := Fresh(items[..|items| - 1], seen);
      var item := items[|items| - 1];
      if ItemKey(item) in seen || ItemKey(item) in KeysOf(before) then before else before + [item]
  }

  method Dedupe(items: seq<Item>, w: Watermark) returns (unseen: seq<Item>, next: Watermark)
    ensures unseen == Fresh(items, SeenKeys(w))
    ensures next == if unseen == [] then w else Keys(Last(SeenKeys(w) + KeysOf(unseen), SEEN_CAP))
  {
    hide ItemKey, Last;
    var seen := SeenKeys(w);
    var seenSet := set k | k in seen;
    unseen := [];
    for n := 0 to |items|
      invariant unseen == Fresh(items[..n], SeenKeys(w))
      invariant seen == SeenKeys(w) + KeysOf(unseen)
      invariant seenSet == set k | k in seen
    {
      assert items[..n + 1][..n] == items[..n];
      var key := ItemKey(items[n]);
      if key !in seenSet {
        seenSet := seenSet + {key};
        seen := seen + [key];
        unseen := unseen + [items[n]];
        assert KeysOf(unseen) == KeysOf(unseen[..|unseen| - 1]) + [key];
      }
    }
    assert items[..|items|] == items;
    next := if unseen == [] then w else Keys(Last(seen, SEEN_CAP));
  }

  /** The keys of a batch's fresh items are exactly the unremembered keys, each once. */
  lemma {:induction false} FreshKeys(items: seq<Item>, seen: seq<Key>)
    ensures forall k :: k in KeysOf(Fresh(items, seen)) <==> k in KeysOf(items) && k !in seen
    ensures Distinct(KeysOf(Fresh(items, seen)))
    ensures forall k :: k in KeysOf(Fresh(items, seen)) ==> k !in seen
  {
    if items != [] {
      var init, item := items[..|items| - 1], items[|items| - 1];
      FreshKeys(init, seen);
      assert KeysOf(items) == KeysOf(init) + [ItemKey(item)];
      assert KeysOf(Fresh(init, seen) + [item]) == KeysOf(Fresh(init, seen)) + [ItemKey(item)];
    }
  }

  // ── The stored text ──

  const QUOTE: nat := 34
  const BACKSLASH: nat := 92

  function HexDigit(n: nat): char
    requires n < 16
  {
    if n < 10 then ('0' as int + n) as char else ('a' as int + n - 10) as char
  }

  function CodeUnit(n: nat): (text: string)
    requires n < 0x10000
    ensures |text| == 6
  {
    ['\\', 'u', HexDigit(n / 0x1000), HexDigit(n / 0x100 % 0x10), HexDigit(n / 0x10 % 0x10), HexDigit(n % 0x10)]
  }

  /** One character inside a JSON string, ASCII only. */
  function Escape(c: char): (text: string)
    ensures 1 <= |text| <= 12 && (' ' <= c <= '~' && c as int != QUOTE && c as int != BACKSLASH ==> |text| == 1)
  {
    var n := c as int;
    if n == QUOTE || n == BACKSLASH then ['\\', c]
    else if c == '\n' then "\\n"
    else if c == '\r' then "\\r"
    else if c == '\t' then "\\t"
    else if n == 8 then "\\b"
    else if n == 12 then "\\f"
    else if ' ' <= c <= '~' then [c]
    else if n < 0x10000 then CodeUnit(n)
    else CodeUnit(0xD800 + (n - 0x10000) / 0x400) + CodeUnit(0xDC00 + (n - 0x10000) % 0x400)
  }

  function Escapes(k: string): (text: string)
    ensures |text| >= |k|
  {
    if k == "" then "" else Escape(k[0]) + Escapes(k[1..])
  }

  function Joined(keys: seq<Key>): string {
    if keys == [] then ""
    else "\"" + Escapes(keys[0]) + "\"" + (if |keys| == 1 then "" else ", " + Joined(keys[1..]))
  }

  /** The JSON list of the keys. */
  function Encode(keys: seq<Key>): string {
    "[" + Joined(keys) + "]"
  }

  predicate Fits(keys: seq<Key>, column: nat) {
    |Encode(keys)| <= column
  }

  lemma {:induction false} EncodingCosts(keys: seq<Key>, width: nat)
    requires forall k :: k in keys ==> |Escapes(k)| >= width
    ensures keys != [] ==> |Joined(keys)| + 2 == |Encode(keys)|
    ensures |Encode(keys)| >= (width + 4) * |keys|
    ensures (forall k :: k in keys ==> |Escapes(k)| == width) && keys != [] ==> |Encode(keys)| == (width + 4) * |keys|
  {
    hide Escapes;
    if keys != [] {
      var rest := keys[1..];
      assert keys[0] in keys && forall k :: k in rest ==> k in keys;
      EncodingCosts(rest, width);
      OneMore(width + 4, |rest|);
      assert |Joined(keys)| == |Escapes(keys[0])| + 2 + (if rest == [] then 0 else 2 + |Joined(rest)|);
    }
  }

  lemma OneMore(a: nat, n: nat)
    ensures a * (n + 1) == a * n + a
  {}

  // ── Whole lives ──

  /** A watch over its life: the watermark it stores, every key a stored poll returned, in order, and those
    * of them that were handed on as events. */
  datatype Watch = Watch(watermark: Watermark, returned: seq<Key>, handed: seq<Key>)

  function FirstKeys(keys: seq<Key>): seq<Key> {
    if |keys| <= MAX_ITEMS then keys else keys[..MAX_ITEMS]
  }

  function NextWindow(s: Watch, items: seq<Item>): seq<Key> {
    Last(SeenKeys(s.watermark) + KeysOf(Fresh(items, SeenKeys(s.watermark))), SEEN_CAP)
  }

  /** One poll. A window too long for the column is an error: nothing is stored and nothing handed on. */
  function Poll(s: Watch, items: seq<Item>, column: nat): Watch {
    var keys := KeysOf(Fresh(items, SeenKeys(s.watermark)));
    if keys == [] || !Fits(NextWindow(s, items), column) then s
    else Watch(Keys(NextWindow(s, items)), s.returned + keys, s.handed + FirstKeys(keys))
  }

  function Polls(start: Watermark, batches: seq<seq<Item>>, column: nat): Watch {
    if batches == [] then Watch(start, [], [])
    else Poll(Polls(start, batches[..|batches| - 1], column), batches[|batches| - 1], column)
  }

  /** No key comes back within `SEEN_CAP` returned keys of itself. */
  ghost predicate Spaced(keys: seq<Key>) {
    forall i, j :: 0 <= i < j < |keys| && keys[i] == keys[j] ==> j - i > SEEN_CAP
  }

  /** The window is the tail of the whole returned history, whatever the watch started from and whatever
    * the column refused. */
  lemma {:induction false} WindowIsHistoryTail(start: Watermark, batches: seq<seq<Item>>, column: nat)
    ensures var s := Polls(start, batches, column);
            SeenKeys(s.watermark) ==
              if s.returned == [] then SeenKeys(start)
              else Last(SeenKeys(start) + s.returned, SEEN_CAP)
  {
    hide Fits, Fresh, ItemKey;
    if batches != [] {
      var before := Polls(start, batches[..|batches| - 1], column);
      WindowIsHistoryTail(start, batches[..|batches| - 1], column);
      var unseen := Fresh(batches[|batches| - 1], SeenKeys(before.watermark));
      if unseen != [] {
        TailOfTail(SeenKeys(start), before.returned, KeysOf(unseen));
      }
    }
  }

  lemma TailOfTail(a: seq<Key>, b: seq<Key>, c: seq<Key>)
    ensures Last(Last(a + b, SEEN_CAP) + c, SEEN_CAP) == Last(a + (b + c), SEEN_CAP)
    ensures Last((a + []) + c, SEEN_CAP) == Last(a + ([] + c), SEEN_CAP)
    ensures Last(a + c, SEEN_CAP) == Last(a + ([] + c), SEEN_CAP)
  {
    assert (a + b) + c == a + (b + c);
    assert [] + c == c;
    assert a + [] == a;
  }

  /** Appending keys that are new to each other and to the last `SEEN_CAP` keys keeps the spacing. */
  lemma AppendKeepsSpaced(past: seq<Key>, keys: seq<Key>)
    requires Spaced(past) && Distinct(keys)
    requires forall i :: 0 <= i < |past| && |past| - i <= SEEN_CAP ==> past[i] !in keys
    ensures Spaced(past + keys)
  {
    var all := past + keys;
    forall i, j | 0 <= i < j < |all| && all[i] == all[j]
      ensures j - i > SEEN_CAP
    {
      if j < |past| {
        assert past[i] == past[j];
      } else if i < |past| {
        assert keys[j - |past|] == past[i];
      }
    }
  }

  lemma {:induction false} ReturnedKeysAreSpaced(start: Watermark, batches: seq<seq<Item>>, column: nat)
    ensures Spaced(Polls(start, batches, column).returned)
  {
    hide Fits, Fresh, ItemKey;
    if batches != [] {
      var before := Polls(start, batches[..|batches| - 1], column);
      var window, past := SeenKeys(before.watermark), before.returned;
      ReturnedKeysAreSpaced(start, batches[..|batches| - 1], column);
      WindowIsHistoryTail(start, batches[..|batches| - 1], column);
      FreshKeys(batches[|batches| - 1], window);
      forall i | 0 <= i < |past| && |past| - i <= SEEN_CAP
        ensures past[i] in window
      {
        var history := SeenKeys(start) + past;
        assert history[|SeenKeys(start)| + i] == past[i];
        assert window[|window| - (|past| - i)] == past[i];
      }
      AppendKeepsSpaced(past, KeysOf(Fresh(batches[|batches| - 1], window)));
    }
  }

  /** A key that is returned a second time has had `SEEN_CAP` other, pairwise different keys
    * returned in between: any polls, any stored watermark to start from, any
    * size of the column. */
  lemma ReturnOnlyAfterCapOthers(start: Watermark, batches: seq<seq<Item>>, column: nat, i: nat, j: nat)
    requires i < j < |Polls(start, batches, column).returned|
    requires Polls(start, batches, column).returned[i] == Polls(start, batches, column).returned[j]
    ensures j - i > SEEN_CAP
    ensures var between := Polls(start, batches, column).returned[i + 1..i + 1 + SEEN_CAP];
            Distinct(between) && Polls(start, batches, column).returned[i] !in between
  {
    hide Polls;
    ReturnedKeysAreSpaced(start, batches, column);
    SpacedMeans(Polls(start, batches, column).returned, i, j);
  }

  lemma SpacedMeans(keys: seq<Key>, i: nat, j: nat)
    requires Spaced(keys) && i < j < |keys| && keys[i] == keys[j]
    ensures j - i > SEEN_CAP
    ensures Distinct(keys[i + 1..i + 1 + SEEN_CAP]) && keys[i] !in keys[i + 1..i + 1 + SEEN_CAP]
  {
  }

  /** A watch that starts from an admissible window keeps one: at most `SEEN_CAP` keys, no repeats. */
  lemma {:induction false} WindowStaysBounded(start: Watermark, batches: seq<seq<Item>>, column: nat)
    requires |SeenKeys(start)| <= SEEN_CAP && Distinct(SeenKeys(start))
    ensures var window := SeenKeys(Polls(start, batches, column).watermark);
            |window| <= SEEN_CAP && Distinct(window)
  {
    if batches != [] {
      var before := Polls(start, batches[..|batches| - 1], column);
      WindowStaysBounded(start, batches[..|batches| - 1], column);
      FreshKeys(batches[|batches| - 1], SeenKeys(before.watermark));
      DisjointAppendIsDistinct(SeenKeys(before.watermark),
                               KeysOf(Fresh(batches[|batches| - 1], SeenKeys(before.watermark))));
    }
  }

  lemma DisjointAppendIsDistinct(a: seq<Key>, b: seq<Key>)
    requires Distinct(a) && Distinct(b)
    requires forall k :: k in b ==> k !in a
    ensures Distinct(a + b) && Distinct(Last(a + b, SEEN_CAP))
  {
    forall i, j | 0 <= i < j < |a + b|
      ensures (a + b)[i] != (a + b)[j]
    {
      if i < |a| <= j {
        assert b[j - |a|] in b && a[i] in a;
      }
    }
  }

  // ── What the column makes of it ──

  /** A window that fits the column has not reached the cap. */
  lemma CapIsOutOfReach(all: seq<Key>)
    ensures Fits(Last(all, SEEN_CAP), COLUMN) <==> Fits(all, COLUMN)
    ensures Fits(all, COLUMN) ==> Last(all, SEEN_CAP) == all
  {
    hide Encode;
    FourEach(all);
    FourEach(Last(all, SEEN_CAP));
  }

  lemma FourEach(keys: seq<Key>)
    ensures |Encode(keys)| >= 4 * |keys|
  {
    hide Encode, Escapes;
    EncodingCosts(keys, 0);
  }

  /** The stored window is everything ever returned: the column is full long before the cap is reached. */
  lemma {:induction false} NothingIsForgotten(start: Watermark, batches: seq<seq<Item>>)
    requires Fits(SeenKeys(start), COLUMN)
    ensures var s := Polls(start, batches, COLUMN);
            SeenKeys(s.watermark) == SeenKeys(start) + s.returned && Fits(SeenKeys(s.watermark), COLUMN)
  {
    hide Fits, Last, Fresh;
    if batches != [] {
      var before := Polls(start, batches[..|batches| - 1], COLUMN);
      var items := batches[|batches| - 1];
      NothingIsForgotten(start, batches[..|batches| - 1]);
      var keys := KeysOf(Fresh(items, SeenKeys(before.watermark)));
      CapIsOutOfReach(SeenKeys(before.watermark) + keys);
      assert (SeenKeys(start) + before.returned) + keys == SeenKeys(start) + (before.returned + keys);
    }
  }

  /** A poll with new items goes through exactly when the whole history and they fit the column. */
  lemma PollGoesThroughExactly(start: Watermark, batches: seq<seq<Item>>, items: seq<Item>)
    requires Fits(SeenKeys(start), COLUMN)
    ensures var s := Polls(start, batches, COLUMN);
            var keys := KeysOf(Fresh(items, SeenKeys(start) + s.returned));
            && SeenKeys(s.watermark) == SeenKeys(start) + s.returned
            && (if keys == [] || !Fits(SeenKeys(start) + s.returned + keys, COLUMN) then Poll(s, items, COLUMN) == s
                else Poll(s, items, COLUMN).returned == s.returned + keys)
  {
    hide Fits, Last, Fresh, Polls;
    NothingIsForgotten(start, batches);
    var s := Polls(start, batches, COLUMN);
    CapIsOutOfReach(SeenKeys(s.watermark) + KeysOf(Fresh(items, SeenKeys(s.watermark))));
  }

  lemma {:induction false} SuffixCostsLess(a: seq<Key>, b: seq<Key>)
    ensures |Encode(b)| <= |Encode(a + b)|
  {
    hide Escapes;
    if a == [] {
      assert a + b == b;
    } else {
      assert (a + b)[1..] == a[1..] + b;
      SuffixCostsLess(a[1..], b);
    }
  }

  /** Main result. With the deployed column a watch never returns a key twice in its life, and no more than
    * 51 keys in all; with keys of sixteen printable characters, no more than 12. */
  lemma ColumnBoundsTheLife(start: Watermark, batches: seq<seq<Item>>)
    requires Fits(SeenKeys(start), COLUMN)
    ensures var s := Polls(start, batches, COLUMN);
            && Distinct(s.returned) && |s.returned| <= 51
            && (forall k :: k in s.returned ==> k !in SeenKeys(start))
            && ((forall k :: k in s.returned ==> |Escapes(k)| >= 16) ==> |s.returned| <= 12)
  {
    hide Encode, Escapes, Polls, Distinct;
    var s := Polls(start, batches, COLUMN);
    NothingIsForgotten(start, batches);
    NoneReturnsTwice(start, batches);
    NoneIsEmpty(start, batches);
    SuffixCostsLess(SeenKeys(start), s.returned);
    EncodingCosts(s.returned, 1);
    if forall k :: k in s.returned ==> |Escapes(k)| >= 16 {
      EncodingCosts(s.returned, 16);
    }
  }

  lemma {:induction false} NoneIsEmpty(start: Watermark, batches: seq<seq<Item>>)
    ensures forall k :: k in Polls(start, batches, COLUMN).returned ==> |Escapes(k)| >= 1
  {
    hide Fits, Escapes;
    if batches != [] {
      NoneIsEmpty(start, batches[..|batches| - 1]);
      var items := batches[|batches| - 1];
      var keys := KeysOf(Fresh(items, SeenKeys(Polls(start, batches[..|batches| - 1], COLUMN).watermark)));
      forall k | k in keys ensures |Escapes(k)| >= 1 {
        assert |Escapes(k)| >= |k|;
      }
    }
  }

  /** Fifty-one items with one-character ids. */
  function ShortItems(digest: Digest): seq<Item> {
    seq(51, i requires 0 <= i < 51 => Item(Some([(35 + i) as char]), digest))
  }

  lemma ShortKeys(digest: Digest)
    ensures var keys := KeysOf(ShortItems(digest)); Distinct(keys) && forall k :: k in keys ==> |Escapes(k)| == 1
  {
    var keys := KeysOf(ShortItems(digest));
    assert forall i :: 0 <= i < 51 ==> keys[i] == [(35 + i) as char];
    forall k | k in keys ensures |Escapes(k)| == 1 {
      assert k[1..] == "" && Escapes("") == "";
    }
  }

  /** The bound is attained. */
  lemma LifeBoundIsAttained(digest: Digest)
    ensures |Polls(Absent, [ShortItems(digest)], COLUMN).returned| == 51
  {
    hide Encode, Escapes, ShortItems, Fresh, ItemKey;
    var items := ShortItems(digest);
    ShortKeys(digest);
    assert |items| == 51 by { FiftyOne(digest); }
    AllAreFresh(items);
    EncodingCosts(KeysOf(items), 1);
    assert Last([] + KeysOf(items), SEEN_CAP) == KeysOf(items);
    LastPoll(Absent, [items]);
    assert [items][..0] == [] && Polls(Absent, [], COLUMN) == Watch(Absent, [], []);
  }

  lemma FiftyOne(digest: Digest)
    ensures |ShortItems(digest)| == 51
  {}

  lemma {:induction false} NoneReturnsTwice(start: Watermark, batches: seq<seq<Item>>)
    requires Fits(SeenKeys(start), COLUMN)
    ensures var s := Polls(start, batches, COLUMN);
            Distinct(s.returned) && forall k :: k in s.returned ==> k !in SeenKeys(start)
  {
    hide Encode, Fits;
    if batches != [] {
      var before := Polls(start, batches[..|batches| - 1], COLUMN);
      NoneReturnsTwice(start, batches[..|batches| - 1]);
      NothingIsForgotten(start, batches[..|batches| - 1]);
      var window := SeenKeys(before.watermark);
      var keys := KeysOf(Fresh(batches[|batches| - 1], window));
      FreshKeys(batches[|batches| - 1], window);
      forall k | k in keys ensures k !in before.returned && k !in SeenKeys(start) {
        assert k !in SeenKeys(start) + before.returned;
      }
      DisjointAppendIsDistinct(before.returned, keys);
    }
  }

  /** Items beyond the twentieth of a poll are skipped for good: whatever is polled afterwards, a key that
    * was returned but not handed on never is. */
  lemma {:induction false} OverflowIsSkipped(start: Watermark, batches: seq<seq<Item>>, more: seq<seq<Item>>, k: Key)
    requires Fits(SeenKeys(start), COLUMN)
    requires var s := Polls(start, batches, COLUMN); k in s.returned && k !in s.handed
    ensures var t := Polls(start, batches + more, COLUMN); k in t.returned && k !in t.handed
  {
    hide Fits, Polls;
    if more == [] {
      assert batches + more == batches;
    } else {
      var all, init := batches + more, batches + more[..|more| - 1];
      assert all[..|all| - 1] == init;
      OverflowIsSkipped(start, batches, more[..|more| - 1], k);
      NothingIsForgotten(start, init);
      var s := Polls(start, init, COLUMN);
      assert k in SeenKeys(s.watermark);
      SeenIsNotHanded(s, all[|all| - 1], k);
      LastPoll(start, all);
    }
  }

  lemma LastPoll(start: Watermark, batches: seq<seq<Item>>)
    requires batches != []
    ensures Polls(start, batches, COLUMN)
            == Poll(Polls(start, batches[..|batches| - 1], COLUMN), batches[|batches| - 1], COLUMN)
  {}

  lemma SeenIsNotHanded(s: Watch, items: seq<Item>, k: Key)
    requires k in SeenKeys(s.watermark)
    ensures var t := Poll(s, items, COLUMN);
            (k in s.returned ==> k in t.returned) && (k !in s.handed ==> k !in t.handed)
  {
    hide Fits;
    FreshKeys(items, SeenKeys(s.watermark));
  }

  /** And there are such keys: of twenty-one items whose keys are single characters the last is returned
    * and not handed on. */
  lemma TheTwentyFirstIsSkipped(items: seq<Item>)
    requires |items| == 21 && Distinct(KeysOf(items)) && forall i :: 0 <= i < 21 ==> |Escapes(ItemKey(items[i]))| == 1
    ensures var s := Poll(Watch(Absent, [], []), items, COLUMN);
            var k := ItemKey(items[20]);
            k in s.returned && k !in s.handed
  {
    hide Encode, Escapes;
    var keys := KeysOf(items);
    AllAreFresh(items);
    assert Last([] + keys, SEEN_CAP) == keys;
    EncodingCosts(keys, 1);
    assert keys[20] == ItemKey(items[20]);
  }

  lemma {:induction false} AllAreFresh(items: seq<Item>)
    requires Distinct(KeysOf(items))
    ensures Fresh(items, []) == items
  {
    hide ItemKey;
    if items != [] {
      var init := items[..|items| - 1];
      assert KeysOf(items) == KeysOf(init) + [ItemKey(items[|items| - 1])];
      AllAreFresh(init);
      forall i | 0 <= i < |init| ensures KeysOf(init)[i] != ItemKey(items[|items| - 1]) {
        assert KeysOf(items)[i] == KeysOf(init)[i];
      }
    }
  }

  /** Thirteen new items without an id, sixteen characters of digest each, are one too many for a new watch:
    * the poll changes nothing, however often it is repeated. */
  lemma {:induction false} ThirteenDigestsJam(items: seq<Item>, n: nat)
    requires |items| == 13 && Distinct(KeysOf(items))
    requires forall i :: 0 <= i < 13 ==> |Escapes(ItemKey(items[i]))| == 16
    ensures |Encode(NextWindow(Watch(Absent, [], []), items))| == 260
    ensures Polls(Absent, seq(n, i requires 0 <= i < n => items), COLUMN) == Watch(Absent, [], [])
  {
    hide Encode, Escapes;
    var keys := KeysOf(items);
    AllAreFresh(items);
    assert Last([] + keys, SEEN_CAP) == keys;
    EncodingCosts(keys, 16);
    if n > 0 {
      ThirteenDigestsJam(items, n - 1);
      var batches := seq(n, i requires 0 <= i < n => items);
      assert batches[..n - 1] == seq(n - 1, i requires 0 <= i < n - 1 => items);
    }
  }
}
