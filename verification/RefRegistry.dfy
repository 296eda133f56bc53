/**
  Stable numbers for the controls of a web page (server/bridge/munim_bridge.py: snapshot,
  observe, resolve, by_name).

  A control is known by its frame and the local number the page script gave it there. What
  a page shows, and whether a control is visible, is an input of each call. Roles, names
  and lower-cased names are opaque numbers.
*/
module RefRegistry {
  import opened Basics

  const MAX_FRAMES := 12

  datatype Key = Key(frame: nat, local: nat)

  datatype Item = Item(local: nat, role: nat, name: nat, folded: nat)

  /** What one frame gave: evaluating the page script may raise. */
  datatype FrameView = Fails | Shows(frame: nat, items: seq<Item>)

  datatype Entry = Entry(key: Key, item: Item, framed: bool)

  datatype Look = Visible | Hidden | Broken

  datatype Found = Found(key: Key, number: int)

  datatype Error = NotANumber | NotOnThePage | NotOneControl

  // ---------------------------------------------------------------- numbering by first appearance

  /** The distinct keys in order of first appearance. */
  function Firsts(keys: seq<Key>): seq<Key> {
    if keys == [] then []
    else
      var before, k := Firsts(keys[..|keys| - 1]), keys[|keys| - 1];
      if k in before then before else before + [k]
  }

  lemma FirstsSnoc(keys: seq<Key>, k: Key)
    ensures Firsts(keys + [k]) == if k in Firsts(keys) then Firsts(keys) else Firsts(keys) + [k]
  {
    assert (keys + [k])[..|keys|] == keys;
  }

  lemma {:induction false} FirstsAreDistinct(keys: seq<Key>)
    ensures forall i, j :: 0 <= i < j < |Firsts(keys)| ==> Firsts(keys)[i] != Firsts(keys)[j]
    decreases |keys|
  {
    if keys != [] {
      FirstsAreDistinct(keys[..|keys| - 1]);
    }
  }

  lemma {:induction false} FirstsHaveAll(keys: seq<Key>)
    ensures forall k :: k in Firsts(keys) <==> k in keys
    decreases |keys|
  {
    if keys != [] {
      var n := |keys| - 1;
      FirstsHaveAll(keys[..n]);
      assert keys == keys[..n] + [keys[n]];
    }
  }

  /** A number once given to a key is never given to another one, whatever is listed later. */
  lemma {:induction false} IssuedNumbersStay(earlier: seq<Key>, later: seq<Key>)
    requires earlier <= later
    ensures Firsts(earlier) <= Firsts(later)
    decreases |later|
  {
    if |earlier| == |later| {
      assert earlier == later;
    } else {
      IssuedNumbersStay(earlier, later[..|later| - 1]);
    }
  }

  // ---------------------------------------------------------------- what a snapshot lists

  function FrameEntries(view: FrameView, index: nat): seq<Entry> {
    match view
    case Fails => []
    case Shows(frame, items) => ItemEntries(frame, items, index)
  }

  function ItemEntries(frame: nat, items: seq<Item>, index: nat): seq<Entry> {
    if items == [] then []
    else
      var n := |items| - 1;
      ItemEntries(frame, items[..n], index) + [Entry(Key(frame, items[n].local), items[n], index > 0)]
  }

  function Entries(frames: seq<FrameView>): seq<Entry> {
    if frames == [] then []
    else
      var n := |frames| - 1;
      Entries(frames[..n]) + FrameEntries(frames[n], n)
  }

  /** A snapshot looks at the first twelve frames. */
  function Listing(frames: seq<FrameView>): seq<Entry> {
    Entries(if |frames| > MAX_FRAMES then frames[..MAX_FRAMES] else frames)
  }

  function Keys(entries: seq<Entry>): seq<Key> {
    if entries == [] then [] else Keys(entries[..|entries| - 1]) + [entries[|entries| - 1].key]
  }

  lemma KeysSnoc(entries: seq<Entry>, e: Entry)
    ensures Keys(entries + [e]) == Keys(entries) + [e.key]
  {
    assert (entries + [e])[..|entries|] == entries;
  }

  lemma {:induction false} KeysConcat(a: seq<Entry>, b: seq<Entry>)
    ensures Keys(a + b) == Keys(a) + Keys(b)
    decreases |b|
  {
    if b == [] {
      assert a + b == a;
    } else {
      var n := |b| - 1;
      KeysConcat(a, b[..n]);
      KeysSnoc(a + b[..n], b[n]);
      KeysSnoc(b[..n], b[n]);
      assert b == b[..n] + [b[n]] && a + b == a + b[..n] + [b[n]];
      hide Keys;
    }
  }

  lemma NothingListed(frame: nat, index: nat)
    ensures ItemEntries(frame, [], index) == [] && Keys([]) == []
  {
  }

  lemma ItemEntriesSnoc(frame: nat, items: seq<Item>, item: Item, index: nat)
    ensures ItemEntries(frame, items + [item], index)
            == ItemEntries(frame, items, index) + [Entry(Key(frame, item.local), item, index > 0)]
  {
    assert (items + [item])[..|items|] == items;
  }

  lemma EntriesSnoc(frames: seq<FrameView>, view: FrameView)
    ensures Entries(frames + [view]) == Entries(frames) + FrameEntries(view, |frames|)
  {
    assert (frames + [view])[..|frames|] == frames;
  }

  lemma OneFrameMore(frames: seq<FrameView>, n: nat, before: seq<Key>)
    requires n < |frames|
    ensures var more := FrameEntries(frames[n], n);
            && Entries(frames[..n + 1]) == Entries(frames[..n]) + more
            && before + Keys(Entries(frames[..n + 1])) == before + Keys(Entries(frames[..n])) + Keys(more)
  {
    var more := FrameEntries(frames[n], n);
    hide Entries, FrameEntries, Keys;
    assert frames[..n + 1] == frames[..n] + [frames[n]];
    EntriesSnoc(frames[..n], frames[n]);
    KeysConcat(Entries(frames[..n]), more);
  }

  /** How many items some first frames list. */
  function Listed(frames: seq<FrameView>): nat {
    if frames == [] then 0
    else
      Listed(frames[..|frames| - 1]) + match frames[|frames| - 1]
                                       case Fails => 0
                                       case Shows(_, items) => |items|
  }

  lemma {:induction false} ItemEntriesMeaning(frame: nat, items: seq<Item>, index: nat)
    ensures |ItemEntries(frame, items, index)| == |items|
    ensures forall i :: 0 <= i < |items| ==>
              ItemEntries(frame, items, index)[i] == Entry(Key(frame, items[i].local), items[i], index > 0)
    decreases |items|
  {
    if items != [] {
      ItemEntriesMeaning(frame, items[..|items| - 1], index);
    }
  }

  lemma {:induction false} EntriesMeaning(frames: seq<FrameView>, f: nat, i: nat)
    requires f < |frames| && frames[f].Shows? && i < |frames[f].items|
    ensures |Entries(frames)| == Listed(frames) && Listed(frames[..f]) + i < |Entries(frames)|
    ensures Entries(frames)[Listed(frames[..f]) + i]
            == Entry(Key(frames[f].frame, frames[f].items[i].local), frames[f].items[i], f > 0)
    decreases |frames|
  {
    var n := |frames| - 1;
    var before, more := Entries(frames[..n]), FrameEntries(frames[n], n);
    assert Entries(frames) == before + more;
    EntriesSize(frames);
    EntriesSize(frames[..n]);
    hide Entries;
    if f < n {
      assert frames[..n][..f] == frames[..f];
      EntriesMeaning(frames[..n], f, i);
    } else {
      ItemEntriesMeaning(frames[n].frame, frames[n].items, n);
      hide Listed;
      assert (before + more)[|before| + i] == more[i];
    }
  }

  lemma {:induction false} EntriesSize(frames: seq<FrameView>)
    ensures |Entries(frames)| == Listed(frames)
    decreases |frames|
  {
    if frames != [] {
      var n := |frames| - 1;
      EntriesSize(frames[..n]);
      if frames[n].Shows? {
        ItemEntriesMeaning(frames[n].frame, frames[n].items, n);
      }
    }
  }

  /**
    Item i of frame f, if that is one of the first twelve, stands behind all items of the
    frames before it, under its frame and local number; items of later frames are marked so.
  */
  lemma ListingMeaning(frames: seq<FrameView>, f: nat, i: nat)
    requires f < 12 && f < |frames| && frames[f].Shows? && i < |frames[f].items|
    ensures |Listing(frames)| == Listed(if |frames| > 12 then frames[..12] else frames)
    ensures var at := Listed(frames[..f]) + i;
            && at < |Listing(frames)|
            && Listing(frames)[at] == Entry(Key(frames[f].frame, frames[f].items[i].local), frames[f].items[i], f > 0)
  {
    var seen := if |frames| > 12 then frames[..12] else frames;
    assert seen[..f] == frames[..f];
    EntriesMeaning(seen, f, i);
  }

  lemma {:induction false} KeysMeaning(entries: seq<Entry>)
    ensures |Keys(entries)| == |entries|
    ensures forall i :: 0 <= i < |entries| ==> Keys(entries)[i] == entries[i].key
    decreases |entries|
  {
    if entries != [] {
      KeysMeaning(entries[..|entries| - 1]);
    }
  }

  // ---------------------------------------------------------------- what a snapshot returns

  /** What is shown for each key: the last entry listed with it. */
  function LastOf(entries: seq<Entry>): map<Key, Entry> {
    if entries == [] then map[]
    else
      var e := entries[|entries| - 1];
      LastOf(entries[..|entries| - 1])[e.key := e]
  }

  lemma LastOfSnoc(entries: seq<Entry>, e: Entry)
    ensures LastOf(entries + [e]) == LastOf(entries)[e.key := e]
  {
    assert (entries + [e])[..|entries|] == entries;
  }

  ghost predicate LastWith(entries: seq<Entry>, i: int, k: Key) {
    0 <= i < |entries| && entries[i].key == k && forall j :: i < j < |entries| ==> entries[j].key != k
  }

  lemma StillLast(entries: seq<Entry>, i: int, k: Key)
    requires entries != [] && LastWith(entries[..|entries| - 1], i, k) && entries[|entries| - 1].key != k
    ensures LastWith(entries, i, k)
  {
    var before := entries[..|entries| - 1];
    assert forall j :: 0 <= j < |before| ==> before[j] == entries[j];
  }

  lemma {:induction false} ListedAreShown(entries: seq<Entry>)
    ensures forall i :: 0 <= i < |entries| ==> entries[i].key in LastOf(entries)
    decreases |entries|
  {
    if entries != [] {
      var n := |entries| - 1;
      ListedAreShown(entries[..n]);
      forall i | 0 <= i < n
        ensures entries[i].key in LastOf(entries)
      {
        assert entries[..n][i] == entries[i];
      }
    }
  }

  lemma {:induction false} ShownIsLast(entries: seq<Entry>, k: Key) returns (i: nat)
    requires k in LastOf(entries)
    ensures LastWith(entries, i, k) && LastOf(entries)[k] == entries[i]
    decreases |entries|
  {
    var n := |entries| - 1;
    if k == entries[n].key {
      i := n;
    } else {
      i := ShownIsLast(entries[..n], k);
      StillLast(entries, i, k);
    }
  }

  /** Exactly the listed keys are shown, each as its last entry. */
  lemma LastOfMeaning(entries: seq<Entry>)
    ensures forall i :: 0 <= i < |entries| ==> entries[i].key in LastOf(entries)
    ensures forall k <- LastOf(entries) :: exists i :: LastWith(entries, i, k) && LastOf(entries)[k] == entries[i]
  {
    ListedAreShown(entries);
    hide LastOf;
    forall k | k in LastOf(entries)
      ensures exists i :: LastWith(entries, i, k) && LastOf(entries)[k] == entries[i]
    {
      var i := ShownIsLast(entries, k);
    }
  }

  /** The numbers under which items with a given role and name are shown. */
  function Hits(items: map<int, Entry>, role: nat, name: nat): set<int> {
    set r | r in items && items[r].item.role == role && items[r].item.name == name
  }

  function Named(items: map<int, Entry>, folded: nat): set<int> {
    set r | r in items && items[r].item.folded == folded
  }

  lemma EmptyOrNot(s: set<int>)
    ensures s == {} || exists r :: r in s
  {
    if forall r :: r !in s {
      assert s == {};
    }
  }

  /** The number is the only one shown with that role and name. */
  ghost predicate OnlyOne(items: map<int, Entry>, n: int, role: nat, name: nat) {
    && n in items && items[n].item.role == role && items[n].item.name == name
    && forall m <- items :: m != n ==> items[m].item.role != role || items[m].item.name != name
  }

  /** The number is the only one shown with that name, letter case aside. */
  ghost predicate OnlyNamed(items: map<int, Entry>, n: int, folded: nat) {
    n in items && items[n].item.folded == folded && forall m <- items :: m != n ==> items[m].item.folded != folded
  }

  lemma OnlyElement(s: set<int>, n: int)
    ensures s == {n} <==> n in s && forall m :: m in s ==> m == n
  {
    if n in s && forall m :: m in s ==> m == n {
      assert s == {n};
    }
  }

  lemma OneElement(s: set<int>)
    ensures |s| == 1 <==> exists n :: s == {n}
  {
    if |s| == 1 {
      var n := Sole(s);
    }
  }

  lemma HitsMeaning(items: map<int, Entry>, role: nat, name: nat)
    ensures forall n :: Hits(items, role, name) == {n} <==> OnlyOne(items, n, role, name)
    ensures |Hits(items, role, name)| == 1 <==> exists n :: OnlyOne(items, n, role, name)
  {
    var hits := Hits(items, role, name);
    forall n
      ensures hits == {n} <==> OnlyOne(items, n, role, name)
    {
      OnlyElement(hits, n);
      if hits == {n} {
        forall m | m in items && m != n
          ensures items[m].item.role != role || items[m].item.name != name
        {
          assert m !in hits;
        }
      }
    }
    OneElement(hits);
  }

  lemma NamedMeaning(items: map<int, Entry>, folded: nat)
    ensures forall n :: Named(items, folded) == {n} <==> OnlyNamed(items, n, folded)
    ensures |Named(items, folded)| == 1 <==> exists n :: OnlyNamed(items, n, folded)
  {
    var hits := Named(items, folded);
    forall n
      ensures hits == {n} <==> OnlyNamed(items, n, folded)
    {
      OnlyElement(hits, n);
      if hits == {n} {
        forall m | m in items && m != n
          ensures items[m].item.folded != folded
        {
          assert m !in hits;
        }
      }
    }
    OneElement(hits);
  }

  /** The element of a set of one. */
  function Sole(s: set<int>): (r: int)
    requires |s| == 1
    ensures s == {r}
  {
    EmptyOrNot(s);
    var r :| r in s;
    assert |s - {r}| == 0;
    r
  }

  class PageRefs {
    var next: nat
    var key: map<Key, int>
    var ref: map<int, Key>
    var lastSeen: map<int, (nat, nat)>
    /** The keys of everything any snapshot listed, in order. */
    ghost var listed: seq<Key>

    /** The two maps are inverse to each other and number the distinct listed keys in order of first appearance. */
    ghost predicate Valid()
      reads `next, `key, `ref, `listed
    {
      && next == |Firsts(listed)|
      && (forall r :: 1 <= r <= next ==> r in ref)
      && (forall r <- ref :: 1 <= r <= next && ref[r] == Firsts(listed)[r - 1] && ref[r] in key && key[ref[r]] == r)
      && (forall k <- key :: key[k] in ref && ref[key[k]] == k)
    }

    /** Nothing is forgotten or renumbered. */
    twostate predicate Grown()
      reads `key, `ref
    {
      && (forall k <- old(key) :: k in key && key[k] == old(key[k]))
      && (forall r <- old(ref) :: r in ref && ref[r] == old(ref[r]))
    }

    /** The items show exactly the listed keys, under their numbers. */
    ghost predicate Shown(items: map<int, Entry>, entries: seq<Entry>)
      reads `key, `ref
    {
      && (forall k <- LastOf(entries) :: k in key && key[k] in items && items[key[k]] == LastOf(entries)[k])
      && (forall r <- items :: r in ref && ref[r] in LastOf(entries))
    }

    lemma NothingShown(frames: seq<FrameView>)
      ensures Shown(map[], Entries(frames[..0])) && listed + Keys(Entries(frames[..0])) == listed
    {
      assert frames[..0] == [] && Keys([]) == [];
    }

    constructor ()
      ensures Valid() && listed == [] && lastSeen == map[]
    {
      next, key, ref, lastSeen, listed := 0, map[], map[], map[], [];
    }

    method Number(k: Key) returns (r: int)
      requires Valid()
      modifies `next, `key, `ref, `listed
      ensures Valid() && Grown() && listed == old(listed) + [k]
      ensures k in key && key[k] == r && r in ref && ref[r] == k
    {
      FirstsSnoc(listed, k);
      hide Firsts;
      if k in key {
        r := key[k];
        assert Firsts(listed)[r - 1] == k;
      } else {
        next := next + 1;
        key, ref, r := key[k := next], ref[next := k], next;
        assert k !in Firsts(listed) by {
          forall i | 0 <= i < |Firsts(listed)|
            ensures Firsts(listed)[i] != k
          {
            assert old(ref)[i + 1] == Firsts(listed)[i];
          }
        }
      }
      listed := listed + [k];
    }

    /** Numbers one listed item and shows it. */
    method Show(e: Entry, shown: map<int, Entry>, ghost entries: seq<Entry>) returns (items: map<int, Entry>)
      requires Valid() && Shown(shown, entries)
      modifies `next, `key, `ref, `listed
      ensures Valid() && Grown() && Shown(items, entries + [e]) && listed == old(listed) + [e.key]
    {
      LastOfSnoc(entries, e);
      hide LastOf, Firsts;
      var r := Number(e.key);
      items := shown[r := e];
    }

    method Visit(frame: nat, index: nat, listing: seq<Item>, shown: map<int, Entry>, ghost entries: seq<Entry>)
      returns (items: map<int, Entry>)
      requires Valid() && Shown(shown, entries)
      modifies `next, `key, `ref, `listed
      ensures Valid()
      ensures Shown(items, entries + ItemEntries(frame, listing, index))
      ensures listed == old(listed) + Keys(ItemEntries(frame, listing, index))
    {
      hide Valid, Shown, Keys, ItemEntries;
      items := shown;
      ghost var added := ItemEntries(frame, listing[..0], index);
      NothingListed(frame, index);
      assert listing[..0] == [] && entries + [] == entries && listed + [] == listed;
      for i := 0 to |listing|
        invariant added == ItemEntries(frame, listing[..i], index)
        invariant Valid() && Shown(items, entries + added)
        invariant listed == old(listed) + Keys(added)
      {
        var e := Entry(Key(frame, listing[i].local), listing[i], index > 0);
        items := Show(e, items, entries + added);
        KeysSnoc(added, e);
        ItemEntriesSnoc(frame, listing[..i], listing[i], index);
        assert listing[..i + 1] == listing[..i] + [listing[i]];
        assert entries + (added + [e]) == entries + added + [e];
        added := added + [e];
      }
      assert listing[..|listing|] == listing;
    }

    method VisitFrame(view: FrameView, index: nat, shown: map<int, Entry>, ghost entries: seq<Entry>)
      returns (items: map<int, Entry>)
      requires Valid() && Shown(shown, entries)
      modifies `next, `key, `ref, `listed
      ensures Valid() && Shown(items, entries + FrameEntries(view, index))
      ensures listed == old(listed) + Keys(FrameEntries(view, index))
    {
      items := shown;
      match view {
        case Fails =>
          assert entries + [] == entries && Keys([]) == [];
        case Shows(frame, listing) =>
          items := Visit(frame, index, listing, items, entries);
      }
    }

    /** Both maps follow from what was listed, so they only grow while more is listed. */
    twostate lemma NothingRenumbered()
      requires old(Valid()) && Valid() && old(listed) <= listed
      ensures Grown()
    {
      IssuedNumbersStay(old(listed), listed);
      hide Firsts;
      forall r | r in old(ref)
        ensures r in ref && ref[r] == old(ref[r])
      {
        assert Firsts(listed)[r - 1] == old(ref[r]);
      }
      forall k | k in old(key)
        ensures k in key && key[k] == old(key[k])
      {
        var r := old(key)[k];
        assert old(ref)[r] == k && r in ref && ref[r] == k;
      }
    }

    method Snapshot(frames: seq<FrameView>) returns (items: map<int, Entry>)
      requires Valid()
      modifies `next, `key, `ref, `listed
      ensures Valid() && Grown() && listed == old(listed) + Keys(Listing(frames)) && Shown(items, Listing(frames))
    {
      var seen := if |frames| > MAX_FRAMES then frames[..MAX_FRAMES] else frames;
      assert Listing(frames) == Entries(seen);
      hide Valid, Shown, Keys, Entries, Listing, FrameEntries;
      items := map[];
      NothingShown(seen);
      for fi := 0 to |seen|
        invariant Valid() && Shown(items, Entries(seen[..fi]))
        invariant listed == old(listed) + Keys(Entries(seen[..fi]))
      {
        OneFrameMore(seen, fi, old(listed));
        items := VisitFrame(seen[fi], fi, items, Entries(seen[..fi]));
      }
      assert seen[..|seen|] == seen;
      NothingRenumbered();
    }

    /** The page after a step: the names shown now are what later re-resolving goes by. */
    method Observe(frames: seq<FrameView>) returns (items: map<int, Entry>)
      requires Valid()
      modifies `next, `key, `ref, `listed, `lastSeen
      ensures Valid() && Grown() && listed == old(listed) + Keys(Listing(frames)) && Shown(items, Listing(frames))
      ensures lastSeen == map r | r in items :: (items[r].item.role, items[r].item.name)
    {
      hide Valid, Shown;
      items := Snapshot(frames);
      lastSeen := map r | r in items :: (items[r].item.role, items[r].item.name);
    }

    /**
      The control of a number: where it was, if it is still visible there; else the only
      control with the role and name last seen under that number; else an error.
    */
    method Resolve(wanted: Option<int>, look: Look, frames: seq<FrameView>)
      returns (r: Result<Found, Error>, ghost items: map<int, Entry>)
      requires Valid()
      modifies `next, `key, `ref, `listed
      ensures Valid() && Grown()
      ensures wanted == None ==> r == Raised(NotANumber) && listed == old(listed)
      ensures wanted.Some? && wanted.value in old(ref) && look == Visible ==>
                r == Returned(Found(old(ref[wanted.value]), wanted.value)) && listed == old(listed)
      ensures wanted.Some? && !(wanted.value in old(ref) && look == Visible) ==>
                if wanted.value !in lastSeen then r == Raised(NotOnThePage) && listed == old(listed)
                else
                  && listed == old(listed) + Keys(Listing(frames)) && Shown(items, Listing(frames))
                  && var (role, name) := lastSeen[wanted.value];
                  && (r.Raised? <==> |Hits(items, role, name)| != 1)
                  && (r.Raised? ==> r.error == NotOnThePage)
                  && (r.Raised? <==> !exists n :: OnlyOne(items, n, role, name))
                  && (r.Returned? ==> Hits(items, role, name) == {r.value.number}
                                      && OnlyOne(items, r.value.number, role, name)
                                      && r.value.number in ref && r.value.key == ref[r.value.number])
    {
      items := map[];
      if wanted.None? {
        return Raised(NotANumber), items;
      }
      if wanted.value in ref && look == Visible {
        return Returned(Found(ref[wanted.value], wanted.value)), items;
      }
      if wanted.value in lastSeen {
        hide Valid, Keys, Listing;
        var shown := Snapshot(frames);
        items := shown;
        var (role, name) := lastSeen[wanted.value];
        var hits := Hits(shown, role, name);
        HitsMeaning(shown, role, name);
        if |hits| == 1 {
          var h := Sole(hits);
          return Returned(Found(ref[h], h)), items;
        }
      }
      return Raised(NotOnThePage), items;
    }

    /** The number of the only control with a given name, letter case aside. */
    method ByName(folded: nat, frames: seq<FrameView>) returns (r: Result<int, Error>, ghost items: map<int, Entry>)
      requires Valid()
      modifies `next, `key, `ref, `listed
      ensures Valid() && Grown() && listed == old(listed) + Keys(Listing(frames)) && Shown(items, Listing(frames))
      ensures r.Raised? <==> |Named(items, folded)| != 1
      ensures r.Returned? ==> Named(items, folded) == {r.value} && r.value in ref
      ensures r.Returned? ==> OnlyNamed(items, r.value, folded)
      ensures r.Raised? ==> r.error == NotOneControl && !exists n :: OnlyNamed(items, n, folded)
    {
      hide Valid, Keys, Listing;
      var shown := Snapshot(frames);
      items := shown;
      var hits := Named(shown, folded);
      NamedMeaning(shown, folded);
      if |hits| == 1 {
        var h := Sole(hits);
        return Returned(h), items;
      }
      return Raised(NotOneControl), items;
    }
  }
}
