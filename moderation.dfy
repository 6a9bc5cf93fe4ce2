/** The four moderation lists (banned users, banned videos, whitelisted users,
    whitelisted videos). Each is an ordered list of `{id, name}` records; the GUI
    callbacks add an entry with a placeholder name, fill the real name in later,
    and remove the entry picked from a list box showing "Name (ID)". */
module Moderation {
  import opened Strings

  datatype Entry = Entry(id: string, name: string)

  /** The name an entry carries until the real one has been fetched. */
  const Placeholder: string := "Loading..."

  predicate Listed(entries: seq<Entry>, id: string) {
    exists k :: 0 <= k < |entries| && entries[k].id == id
  }

  /** No two entries share an id: what the add callbacks keep true. */
  predicate DistinctIds(entries: seq<Entry>) {
    forall i, j :: 0 <= i < j < |entries| ==> entries[i].id != entries[j].id
  }

  /** How an entry is shown in the list box. */
  function Display(e: Entry): string {
    e.name + " (" + e.id + ")"
  }

  predicate IsCloseParen(c: char) { c == ')' }

  /** The id picked out of a list-box line: the text after its last "(", with
      every ")" stripped from both ends. */
  function ExtractId(selected: string): string {
    Trim(AfterLast(selected, '('), IsCloseParen)
  }

  // ---------------------------------------------------------------------------
  // The list operations, as functions
  // ---------------------------------------------------------------------------

  /** The add callbacks: the stripped input is appended with the placeholder name,
      unless it is empty or already listed; the entries before it never change. */
  function Added(entries: seq<Entry>, input: string): (r: seq<Entry>)
    ensures |entries| <= |r| <= |entries| + 1 && r[..|entries|] == entries
    ensures |r| > |entries| <==> Strip(input) != [] && !Listed(entries, Strip(input))
    ensures |r| > |entries| ==> r[|entries|] == Entry(Strip(input), Placeholder)
  {
    var id := Strip(input);
    if id != [] && !Listed(entries, id) then entries + [Entry(id, Placeholder)] else entries
  }

  /** The position of the first entry with the id. */
  function FirstIndex(entries: seq<Entry>, id: string): (k: nat)
    requires Listed(entries, id)
    ensures k < |entries| && entries[k].id == id
    ensures forall j :: 0 <= j < k ==> entries[j].id != id
  {
    if entries[0].id == id then 0
    else
      assert exists k :: 1 <= k < |entries| && entries[k].id == id;
      assert Listed(entries[1..], id) by {
        var k :| 1 <= k < |entries| && entries[k].id == id;
        assert entries[1..][k - 1].id == id;
      }
      1 + FirstIndex(entries[1..], id)
  }

  /** The name backfill: the first entry with the id gets the new name and every
      other entry stays as it was; nothing is added, and a list without the id is
      left as it is. */
  function Renamed(entries: seq<Entry>, id: string, name: string): (r: seq<Entry>)
    ensures |r| == |entries|
    ensures forall k :: 0 <= k < |r| ==> r[k].id == entries[k].id
    ensures !Listed(entries, id) ==> r == entries
    ensures Listed(entries, id) ==>
      exists k :: 0 <= k < |r| && r[k] == Entry(id, name)
                  && (forall j :: 0 <= j < k ==> entries[j].id != id)
                  && (forall j :: 0 <= j < |r| && j != k ==> r[j] == entries[j])
  {
    if Listed(entries, id) then entries[FirstIndex(entries, id) := Entry(id, name)] else entries
  }

  /** The remove callbacks: every entry with the id goes, the others stay in order. */
  function Without(entries: seq<Entry>, id: string): (r: seq<Entry>)
    ensures |r| <= |entries|
    ensures !Listed(r, id)
    ensures forall e :: e in r ==> e in entries
  {
    if entries == [] then []
    else if entries[0].id == id then Without(entries[1..], id)
    else [entries[0]] + Without(entries[1..], id)
  }

  // ---------------------------------------------------------------------------
  // What the operations promise together
  // ---------------------------------------------------------------------------

  /** Every entry of another id survives a removal. */
  lemma {:induction false} WithoutKeepsOthers(entries: seq<Entry>, id: string, e: Entry)
    requires e in entries && e.id != id
    ensures e in Without(entries, id)
  {
    if entries[0] != e {
      WithoutKeepsOthers(entries[1..], id, e);
    }
  }

  /** Removal works entry by entry, so it keeps the order of what it keeps. */
  lemma {:induction false} WithoutAppend(a: seq<Entry>, b: seq<Entry>, id: string)
    ensures Without(a + b, id) == Without(a, id) + Without(b, id)
  {
    if a != [] {
      assert (a + b)[1..] == a[1..] + b;
      WithoutAppend(a[1..], b, id);
    } else {
      assert a + b == b;
    }
  }

  /** Removing an id that is not listed changes nothing. */
  lemma {:induction false} WithoutAbsent(entries: seq<Entry>, id: string)
    requires !Listed(entries, id)
    ensures Without(entries, id) == entries
  {
    if entries != [] {
      assert entries[0].id != id;
      WithoutAbsent(entries[1..], id);
    }
  }

  /** The add callbacks keep the ids distinct. */
  lemma AddedKeepsDistinct(entries: seq<Entry>, input: string)
    requires DistinctIds(entries)
    ensures DistinctIds(Added(entries, input))
  {
    var r := Added(entries, input);
    if |r| > |entries| {
      forall i, j | 0 <= i < j < |r| ensures r[i].id != r[j].id {
        if j == |entries| {
          assert r[i] == entries[i];
        } else {
          assert r[i] == entries[i] && r[j] == entries[j];
        }
      }
    }
  }

  /** The backfill keeps the ids, so it keeps them distinct and never re-adds one. */
  lemma RenamedKeepsIds(entries: seq<Entry>, id: string, name: string, other: string)
    ensures DistinctIds(entries) ==> DistinctIds(Renamed(entries, id, name))
    ensures Listed(Renamed(entries, id, name), other) <==> Listed(entries, other)
  {
    var r := Renamed(entries, id, name);
    if Listed(r, other) {
      var k :| 0 <= k < |r| && r[k].id == other;
      assert entries[k].id == other;
    }
    if Listed(entries, other) {
      var k :| 0 <= k < |entries| && entries[k].id == other;
      assert r[k].id == other;
    }
  }

  /** Removing an id from a list of distinct ids drops exactly one entry when the
      id is listed, and the rest stay distinct. */
  lemma {:induction false} WithoutDistinct(entries: seq<Entry>, id: string)
    requires DistinctIds(entries)
    ensures DistinctIds(Without(entries, id))
    ensures |Without(entries, id)| == if Listed(entries, id) then |entries| - 1 else |entries|
  {
    if entries != [] {
      var tail := entries[1..];
      assert DistinctIds(tail) by {
        forall i, j | 0 <= i < j < |tail| ensures tail[i].id != tail[j].id {
          assert tail[i] == entries[i + 1] && tail[j] == entries[j + 1];
        }
      }
      WithoutDistinct(tail, id);
      assert Listed(entries, id) <==> entries[0].id == id || Listed(tail, id) by {
        if Listed(entries, id) && entries[0].id != id {
          var k :| 0 <= k < |entries| && entries[k].id == id;
          assert tail[k - 1].id == id;
        }
        if Listed(tail, id) {
          var k :| 0 <= k < |tail| && tail[k].id == id;
          assert entries[k + 1].id == id;
        }
      }
      if entries[0].id != id {
        var r := Without(entries, id);
        forall i, j | 0 <= i < j < |r| ensures r[i].id != r[j].id {
          if i == 0 {
            assert r[j] in Without(tail, id);
            assert r[j] in tail;
            var m :| 0 <= m < |tail| && tail[m] == r[j];
            assert entries[m + 1] == r[j];
          } else {
            assert r[i] == Without(tail, id)[i - 1] && r[j] == Without(tail, id)[j - 1];
          }
        }
      }
    }
  }

  /** The id of a list-box line is read back from it, as long as the id holds no
      "(" and does not start or end with ")". */
  lemma ExtractDisplayedId(e: Entry)
    requires '(' !in e.id
    requires e.id != [] ==> e.id[0] != ')' && e.id[|e.id| - 1] != ')'
    ensures ExtractId(Display(e)) == e.id
  {
    var tail := e.id + ")";
    assert Display(e) == (e.name + " ") + ['('] + tail;
    AfterLastOf(e.name + " ", '(', tail);
    StripOneParen(e.id);
  }

  /** Stripping ")" from `id + ")"` gives `id` back when `id` has none at its ends. */
  lemma StripOneParen(id: string)
    requires id != [] ==> id[0] != ')' && id[|id| - 1] != ')'
    ensures Trim(id + ")", IsCloseParen) == id
  {
    var tail := id + ")";
    if id == [] {
      assert TrimStart(tail, IsCloseParen) == TrimStart([], IsCloseParen);
    } else {
      assert TrimStart(tail, IsCloseParen) == tail;
      assert tail[..|tail| - 1] == id;
      assert TrimEnd(tail, IsCloseParen) == TrimEnd(id, IsCloseParen);
    }
  }

  /** The text after the last `c` of `a + [c] + b` is `b` when `b` holds no `c`. */
  lemma AfterLastOf(a: string, c: char, b: string)
    requires c !in b
    ensures AfterLast(a + [c] + b, c) == b
  {
    var s := a + [c] + b;
    assert s[|s| - |b| - 1] == c;
  }

  /** Banning a new id, filling in its name and then removing the line shown for
      it gives back the list as it was. */
  lemma {:induction false} AddBackfillRemove(entries: seq<Entry>, input: string, name: string)
    requires Strip(input) != [] && !Listed(entries, Strip(input))
    requires '(' !in Strip(input) && Strip(input)[0] != ')' && Strip(input)[|Strip(input)| - 1] != ')'
    ensures var id := Strip(input);
            Without(Renamed(Added(entries, input), id, name), ExtractId(Display(Entry(id, name)))) == entries
  {
    var id := Strip(input);
    var added := Added(entries, input);
    assert added == entries + [Entry(id, Placeholder)];
    assert Listed(added, id) by { assert added[|entries|].id == id; }
    assert FirstIndex(added, id) == |entries|;
    assert Renamed(added, id, name) == entries + [Entry(id, name)];
    ExtractDisplayedId(Entry(id, name));
    WithoutAppend(entries, [Entry(id, name)], id);
    WithoutAbsent(entries, id);
    assert Without([Entry(id, name)], id) == [];
  }

  // ---------------------------------------------------------------------------
  // One list, updated in place by the GUI callbacks
  // ---------------------------------------------------------------------------

  class ModerationList {
    var entries: seq<Entry>

    constructor(loaded: seq<Entry>)
      ensures entries == loaded
    {
      entries := loaded;
    }

    /** The ban/whitelist callbacks: add the stripped input with the placeholder
        name, unless it is empty or already listed. */
    method Add(input: string) returns (added: bool)
      modifies this
      ensures entries == Added(old(entries), input)
      ensures added <==> |entries| == |old(entries)| + 1
    {
      var id := Strip(input);
      if id != [] && !Listed(entries, id) {
        entries := entries + [Entry(id, Placeholder)];
        added := true;
      } else {
        added := false;
      }
    }

    /** The background name fetch: `realName` is the name the fetch returned, which
        is "Unknown Channel" or "Unknown Video" when the lookup failed, since the
        lookups catch their own errors; None stands for an exception raised before
        the rename, which the handler catches. The first entry still carrying the id
        gets the name; a removed entry stays removed. */
    method Backfill(id: string, realName: Option<string>)
      modifies this
      ensures realName.None? ==> entries == old(entries)
      ensures realName.Some? ==> entries == Renamed(old(entries), id, realName.value)
    {
      if realName.None? {
        return;
      }
      var k := 0;
      while k < |entries|
        invariant k <= |entries| && entries == old(entries)
        invariant forall j :: 0 <= j < k ==> entries[j].id != id
      {
        if entries[k].id == id {
          assert Listed(entries, id);
          assert FirstIndex(entries, id) == k;
          entries := entries[k := entries[k].(name := realName.value)];
          return;
        }
        k := k + 1;
      }
    }

    /** The unban/unwhitelist callbacks: with a line selected, drop every entry
        with the id read from it. */
    method Remove(selected: string)
      modifies this
      ensures selected == [] ==> entries == old(entries)
      ensures selected != [] ==> entries == Without(old(entries), ExtractId(selected))
    {
      if selected != [] {
        entries := Without(entries, ExtractId(selected));
      }
    }
  }
}
