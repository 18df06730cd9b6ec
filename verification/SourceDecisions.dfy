/** Which items of a poll are returned, what is stored and what is handed on, item by item. */
module SourceDecisions {
  import opened Options
  import opened Sources

  /** The id field, if it holds text; the digest of the content otherwise. */
  function NameOf(item: Item): Key {
    match item.id
    case Some(id) => if id == "" then item.digest else id
    case None => item.digest
  }

  /** Not remembered, and no earlier item of the batch has the same name. */
  ghost predicate New(items: seq<Item>, seen: seq<Key>, p: nat)
    requires p < |items|
  {
    NameOf(items[p]) !in seen && forall q :: 0 <= q < p ==> NameOf(items[q]) != NameOf(items[p])
  }

  /** Main result. A poll returns exactly its new items, in the order of the source: each further item is
    * appended exactly if it is new. */
  lemma ReturnedExactly(items: seq<Item>, seen: seq<Key>)
    ensures Fresh([], seen) == []
    ensures items != [] ==>
              var init, last := items[..|items| - 1], items[|items| - 1];
              Fresh(items, seen) == if New(items, seen, |items| - 1) then Fresh(init, seen) + [last] else Fresh(init, seen)
  {
    if items != [] {
      var init, last := items[..|items| - 1], items[|items| - 1];
      FreshKeys(init, seen);
      assert ItemKey(last) == NameOf(last);
      assert ItemKey(last) in KeysOf(init) <==> exists q :: 0 <= q < |init| && NameOf(items[q]) == NameOf(last) by {
        forall q | 0 <= q < |init| ensures KeysOf(init)[q] == NameOf(items[q]) {}
      }
    }
  }

  /** Main result. A poll with nothing new stores nothing. Any other appends its names to the window, keeps the
    * last hundred, and stores them and hands on the first twenty of the batch if their text has at most 255
    * characters; if it has more, nothing is stored and nothing handed on. */
  lemma PollDecidesExactly(s: Watch, items: seq<Item>)
    ensures var keys := KeysOf(Fresh(items, SeenKeys(s.watermark)));
            var all := SeenKeys(s.watermark) + keys;
            var window := if |all| <= 100 then all else all[|all| - 100..];
            var t := Poll(s, items, 255);
            && (keys == [] || |Encode(window)| > 255 ==> t == s)
            && (keys != [] && |Encode(window)| <= 255 ==>
                  && t.watermark == Keys(window)
                  && t.returned == s.returned + keys
                  && t.handed == s.handed + if |keys| <= 20 then keys else keys[..20])
            && SeenKeys(Absent) == SeenKeys(Malformed) == [] && SeenKeys(Keys(keys)) == keys
  {
    hide Encode, Fresh;
  }
}
