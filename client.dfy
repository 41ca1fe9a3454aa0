/** The value transforms of the browser application: the recipe form's tag
    parsing, default values and reset; the recipe list's meta line; the
    planner's per-day update and selector value; and the grocery editor's
    list operations. Rendering and the network are not modelled. */
module Client {
  import opened Js

  /** `a` is `b` with some elements left out, the rest in their order. */
  ghost predicate Subseq<T>(a: seq<T>, b: seq<T>)
    decreases |b|
  {
    a == [] || (b != [] && ((a[0] == b[0] && Subseq(a[1..], b[1..])) || Subseq(a, b[1..])))
  }

  // ---------------------------------------------------------------- tags

  /** `parts.map(t => t.trim())`. */
  function TrimAll(parts: seq<string>): (trimmed: seq<string>)
    ensures |trimmed| == |parts|
  {
    if parts == [] then [] else [Trim(parts[0])] + TrimAll(parts[1..])
  }

  /** Each trimmed piece is the trim of the piece at the same place. */
  lemma {:induction false} TrimAllAt(parts: seq<string>, k: nat)
    requires k < |parts|
    ensures TrimAll(parts)[k] == Trim(parts[k])
  {
    var rest := TrimAll(parts[1..]);
    assert TrimAll(parts) == [Trim(parts[0])] + rest;
    if k > 0 {
      TrimAllAt(parts[1..], k - 1);
      assert parts[1..][k - 1] == parts[k];
      assert ([Trim(parts[0])] + rest)[k] == rest[k - 1];
    }
  }

  /** `parts.filter(Boolean)`: the non-empty strings, in their order. */
  function NonEmpty(parts: seq<string>): (kept: seq<string>)
    ensures |kept| <= |parts|
    ensures forall k :: 0 <= k < |kept| ==> kept[k] != ""
    ensures forall x :: x in kept <==> x in parts && x != ""
    ensures Subseq(kept, parts)
    ensures (forall k :: 0 <= k < |parts| ==> parts[k] != "") ==> kept == parts
  {
    if parts == [] then []
    else if parts[0] == "" then NonEmpty(parts[1..])
    else [parts[0]] + NonEmpty(parts[1..])
  }

  /** Filtering keeps every copy of every non-empty string, and no empty
      one: a repeated string is kept as often as it occurs. */
  lemma {:induction false} NonEmptyCounts(parts: seq<string>)
    ensures multiset(NonEmpty(parts)) == multiset(parts)["" := 0]
  {
    if parts != [] {
      NonEmptyCounts(parts[1..]);
      assert parts == [parts[0]] + parts[1..];
    }
  }

  /** A tag as the form stores it: non-empty, no white space at either end,
      no comma. */
  predicate CleanTag(t: string) {
    t != "" && !IsSpace(t[0]) && !IsSpace(t[|t| - 1]) && ',' !in t
  }

  /** `tags.split(',').map(t => t.trim()).filter(Boolean)`: the trimmed
      comma-separated pieces that are not empty, in input order, at most one
      per comma plus one. */
  function ParseTags(s: string): (tags: seq<string>)
    ensures forall k :: 0 <= k < |tags| ==> CleanTag(tags[k])
    ensures |tags| <= Occurrences(s, ',') + 1
    ensures Subseq(tags, TrimAll(Split(s, ',')))
  {
    TrimAllClean(Split(s, ','));
    NonEmptyClean(TrimAll(Split(s, ',')));
    NonEmpty(TrimAll(Split(s, ',')))
  }

  /** Every non-empty trimmed piece becomes a tag as often as it occurs, so
      a tag written twice is kept twice. */
  lemma ParseTagsCounts(s: string)
    ensures multiset(ParseTags(s)) == multiset(TrimAll(Split(s, ',')))["" := 0]
  {
    NonEmptyCounts(TrimAll(Split(s, ',')));
  }

  /** Trimming a comma-free piece leaves it empty or a clean tag. */
  lemma TrimClean(s: string)
    requires ',' !in s
    ensures Trim(s) == "" || CleanTag(Trim(s))
  {
    TrimEmptyOrClean(s);
    TrimIsSlice(s);
    SliceCommaFree(s, Trim(s));
  }

  /** A trimmed slice of a comma-free string is comma-free. */
  lemma SliceCommaFree(s: string, t: string)
    requires ',' !in s
    requires TrimmedFrom(t, s)
    ensures ',' !in t
  {
    var i :| 0 <= i <= |s| - |t| && t == s[i..i + |t|] && AllSpace(s[..i]) && AllSpace(s[i + |t|..]);
  }

  /** Trimming comma-free pieces leaves each empty or a clean tag. */
  lemma TrimAllClean(parts: seq<string>)
    requires forall k :: 0 <= k < |parts| ==> ',' !in parts[k]
    ensures forall k :: 0 <= k < |parts| ==> TrimAll(parts)[k] == "" || CleanTag(TrimAll(parts)[k])
  {
    forall k | 0 <= k < |parts| ensures TrimAll(parts)[k] == "" || CleanTag(TrimAll(parts)[k]) {
      TrimAllAt(parts, k);
      TrimClean(parts[k]);
    }
  }

  /** Dropping the empty strings from a list of clean-or-empty tags leaves
      clean tags only. */
  lemma {:induction false} NonEmptyClean(parts: seq<string>)
    requires forall k :: 0 <= k < |parts| ==> parts[k] == "" || CleanTag(parts[k])
    ensures forall k :: 0 <= k < |NonEmpty(parts)| ==> CleanTag(NonEmpty(parts)[k])
  {
    if parts != [] {
      NonEmptyClean(parts[1..]);
    }
  }

  /** Every character of `s` is white space or a comma. */
  predicate SpaceOrComma(s: string) {
    forall k :: 0 <= k < |s| ==> IsSpace(s[k]) || s[k] == ','
  }

  /** The form stores no tags exactly when the field holds nothing but white
      space and commas (the empty field included). */
  lemma ParseTagsEmpty(s: string)
    ensures ParseTags(s) == [] <==> SpaceOrComma(s)
  {
    var pieces := Split(s, ',');
    assert Join(pieces, ",") == s;
    PiecesYieldNoTags(pieces);
  }

  /** Comma-free pieces trim and filter to nothing exactly when joining them
      with commas gives white space and commas only. */
  lemma PiecesYieldNoTags(pieces: seq<string>)
    requires forall k :: 0 <= k < |pieces| ==> ',' !in pieces[k]
    ensures NonEmpty(TrimAll(pieces)) == [] <==> SpaceOrComma(Join(pieces, ","))
  {
    var trimmed := TrimAll(pieces);
    NonEmptyIsEmpty(trimmed);
    TrimAllBlank(pieces);
    PiecesSpaceOrComma(pieces);
  }

  /** Filtering leaves nothing exactly when every string is empty. */
  lemma {:induction false} NonEmptyIsEmpty(parts: seq<string>)
    ensures NonEmpty(parts) == [] <==> forall k :: 0 <= k < |parts| ==> parts[k] == ""
  {
    if parts != [] {
      NonEmptyIsEmpty(parts[1..]);
      if parts[0] == "" {
        assert forall k :: 1 <= k < |parts| ==> parts[k] == parts[1..][k - 1];
      }
    }
  }

  /** One trimmed piece is empty exactly when that piece is white space. */
  lemma {:induction false} TrimAllBlankAt(parts: seq<string>, k: nat)
    requires k < |parts|
    ensures TrimAll(parts)[k] == "" <==> AllSpace(parts[k])
  {
    TrimAllAt(parts, k);
    TrimEmptyOrClean(parts[k]);
  }

  /** Every trimmed piece is empty exactly when every piece is white space. */
  lemma {:induction false} TrimAllBlank(parts: seq<string>)
    ensures (forall k :: 0 <= k < |parts| ==> TrimAll(parts)[k] == "")
        <==> (forall k :: 0 <= k < |parts| ==> AllSpace(parts[k]))
  {
    if forall k :: 0 <= k < |parts| ==> AllSpace(parts[k]) {
      forall k | 0 <= k < |parts| ensures TrimAll(parts)[k] == "" {
        TrimAllBlankAt(parts, k);
      }
    } else {
      var k :| 0 <= k < |parts| && !AllSpace(parts[k]);
      TrimAllBlankAt(parts, k);
    }
  }

  /** Comma-free pieces are all white space exactly when joining them with
      commas gives white space and commas only. */
  lemma {:induction false} PiecesSpaceOrComma(pieces: seq<string>)
    requires forall k :: 0 <= k < |pieces| ==> ',' !in pieces[k]
    ensures (forall k :: 0 <= k < |pieces| ==> AllSpace(pieces[k]))
        <==> SpaceOrComma(Join(pieces, ","))
  {
    if |pieces| == 1 {
      SpaceOrCommaPiece(pieces[0]);
    } else if |pieces| > 1 {
      var rest := pieces[1..];
      var tail := Join(rest, ",");
      PiecesSpaceOrComma(rest);
      SpaceOrCommaPiece(pieces[0]);
      assert Join(pieces, ",") == pieces[0] + ("," + tail);
      SpaceOrCommaConcat(pieces[0], "," + tail);
      SpaceOrCommaConcat(",", tail);
      assert SpaceOrComma(",");
      AllBlankCons(pieces);
    }
  }

  /** A list of pieces is all white space exactly when its first piece and
      the rest are. */
  lemma AllBlankCons(pieces: seq<string>)
    requires |pieces| > 0
    ensures (forall k :: 0 <= k < |pieces| ==> AllSpace(pieces[k]))
        <==> AllSpace(pieces[0]) && (forall k :: 0 <= k < |pieces[1..]| ==> AllSpace(pieces[1..][k]))
  {
    assert forall k :: 1 <= k < |pieces| ==> pieces[k] == pieces[1..][k - 1];
  }

  /** A comma-free piece is white space and commas only exactly when it is
      white space only. */
  lemma SpaceOrCommaPiece(p: string)
    requires ',' !in p
    ensures SpaceOrComma(p) <==> AllSpace(p)
  {
  }

  /** A concatenation is white space and commas only exactly when both sides
      are. */
  lemma SpaceOrCommaConcat(a: string, b: string)
    ensures SpaceOrComma(a + b) <==> SpaceOrComma(a) && SpaceOrComma(b)
  {
    if SpaceOrComma(a + b) {
      forall k | 0 <= k < |a| ensures IsSpace(a[k]) || a[k] == ',' {
        assert a[k] == (a + b)[k];
      }
      forall k | 0 <= k < |b| ensures IsSpace(b[k]) || b[k] == ',' {
        assert b[k] == (a + b)[|a| + k];
      }
    }
    if SpaceOrComma(a) && SpaceOrComma(b) {
      forall k | 0 <= k < |a + b| ensures IsSpace((a + b)[k]) || (a + b)[k] == ',' {
        if k < |a| { assert (a + b)[k] == a[k]; } else { assert (a + b)[k] == b[k - |a|]; }
      }
    }
  }

  /** Parsing a comma-joined list is trimming and filtering that list. */
  lemma {:induction false} ParseTagsOfJoin(parts: seq<string>)
    requires |parts| > 0
    requires forall k :: 0 <= k < |parts| ==> ',' !in parts[k]
    ensures ParseTags(Join(parts, ",")) == NonEmpty(TrimAll(parts))
  {
    SplitJoin(parts, ',');
  }

  /** Clean tags are their own trims. */
  lemma {:induction false} TrimAllOfClean(tags: seq<string>)
    requires forall k :: 0 <= k < |tags| ==> CleanTag(tags[k])
    ensures TrimAll(tags) == tags
  {
    if tags != [] {
      TrimOfTrimmed(tags[0]);
      TrimAllOfClean(tags[1..]);
      assert tags == [tags[0]] + tags[1..];
    }
  }

  /** The empty field parses to no tags. */
  lemma ParseTagsOfEmpty()
    ensures ParseTags("") == []
  {
    assert Split("", ',') == [""];
    assert TrimAll([""]) == [""];
  }

  /** A list of clean tags joined with commas parses back to itself, in the
      same order. */
  lemma ParseTagsRoundTrip(tags: seq<string>)
    requires forall k :: 0 <= k < |tags| ==> CleanTag(tags[k])
    ensures ParseTags(Join(tags, ",")) == tags
  {
    if tags == [] {
      ParseTagsOfEmpty();
    } else {
      ParseTagsOfJoinedClean(tags);
    }
  }

  /** The non-empty case of the round trip. */
  lemma ParseTagsOfJoinedClean(tags: seq<string>)
    requires tags != []
    requires forall k :: 0 <= k < |tags| ==> CleanTag(tags[k])
    ensures ParseTags(Join(tags, ",")) == tags
  {
    CleanTagsCommaFree(tags);
    ParseTagsOfJoin(tags);
    CleanTagsKept(tags);
  }

  /** Trimming and filtering keep a list of clean tags as it is. */
  lemma CleanTagsKept(tags: seq<string>)
    requires forall k :: 0 <= k < |tags| ==> CleanTag(tags[k])
    ensures NonEmpty(TrimAll(tags)) == tags
  {
    TrimAllOfClean(tags);
    NonEmptyOfClean(tags);
  }

  /** Filtering keeps a list of clean tags as it is. */
  lemma NonEmptyOfClean(tags: seq<string>)
    requires forall k :: 0 <= k < |tags| ==> CleanTag(tags[k])
    ensures NonEmpty(tags) == tags
  {
  }

  /** Clean tags hold no comma. */
  lemma CleanTagsCommaFree(tags: seq<string>)
    requires forall k :: 0 <= k < |tags| ==> CleanTag(tags[k])
    ensures forall k :: 0 <= k < |tags| ==> ',' !in tags[k]
  {
  }

  // ---------------------------------------------------------- meta line

  /** The separator of the meta line: space, middle dot, space. */
  const MetaSeparator: string := " \U{00B7} "

  /** `[protein, glutenFree ? 'GF' : '', kidFriendly ? 'Kid' : ''].filter(Boolean).join(' · ')`. */
  function MetaLine(protein: string, glutenFree: bool, kidFriendly: bool): string {
    Join(NonEmpty([protein, if glutenFree then "GF" else "", if kidFriendly then "Kid" else ""]),
         MetaSeparator)
  }

  /** The parts of the meta line that are present: the protein when it is not
      empty, then "GF", then "Kid". */
  function MetaParts(protein: string, glutenFree: bool, kidFriendly: bool): seq<string> {
    (if protein != "" then [protein] else [])
    + (if glutenFree then ["GF"] else [])
    + (if kidFriendly then ["Kid"] else [])
  }

  /** The meta line joins exactly the present parts, so no separator stands
      next to an empty part. */
  lemma {:induction false} MetaLineJoinsPresentParts(protein: string, glutenFree: bool, kidFriendly: bool)
    ensures MetaLine(protein, glutenFree, kidFriendly)
         == Join(MetaParts(protein, glutenFree, kidFriendly), MetaSeparator)
  {
    var gf := if glutenFree then "GF" else "";
    var kid := if kidFriendly then "Kid" else "";
    var all := [protein, gf, kid];
    assert all[1..] == [gf, kid] && [gf, kid][1..] == [kid] && [kid][1..] == [];
    assert NonEmpty([kid]) == (if kidFriendly then ["Kid"] else []);
    assert NonEmpty([gf, kid]) == (if glutenFree then ["GF"] else []) + NonEmpty([kid]);
    assert NonEmpty(all) == (if protein != "" then [protein] else []) + NonEmpty([gf, kid]);
    assert NonEmpty(all) == MetaParts(protein, glutenFree, kidFriendly);
  }

  /** The joined string of non-empty parts is empty exactly when there are no
      parts. */
  lemma {:induction false} JoinOfNonEmpty(parts: seq<string>, sep: string)
    requires forall k :: 0 <= k < |parts| ==> parts[k] != ""
    ensures Join(parts, sep) == "" <==> parts == []
  {
    if |parts| > 1 {
      assert |Join(parts, sep)| >= |parts[0]|;
    }
  }

  /** The meta line is blank exactly when there is no protein and neither
      flag is set. */
  lemma {:induction false} MetaLineEmpty(protein: string, glutenFree: bool, kidFriendly: bool)
    ensures MetaLine(protein, glutenFree, kidFriendly) == ""
        <==> protein == "" && !glutenFree && !kidFriendly
  {
    MetaLineJoinsPresentParts(protein, glutenFree, kidFriendly);
    JoinOfNonEmpty(MetaParts(protein, glutenFree, kidFriendly), MetaSeparator);
  }

  // ------------------------------------------------------------ planner

  /** A plan as the browser holds it: day name to recipe ids. */
  type Plan = map<string, seq<string>>

  /** `e.target.value || null`: the empty option means no recipe. */
  function Chosen(value: string): (recipeId: Option<string>)
    ensures recipeId.None? <==> value == ""
    ensures recipeId.Some? ==> recipeId.value == value
  {
    if value == "" then None else Some(value)
  }

  /** `{ ...plan, [day]: recipeId ? [recipeId] : [] }`: `day` holds the one
      chosen id, or nothing for no or an empty id; every other day is kept. */
  function SetDay(plan: Plan, day: string, recipeId: Option<string>): (next: Plan)
    ensures next.Keys == plan.Keys + {day}
    ensures forall d :: d in plan && d != day ==> next[d] == plan[d]
    ensures |next[day]| <= 1
    ensures next[day] == [] <==> recipeId.None? || recipeId.value == ""
    ensures next[day] != [] ==> next[day][0] == recipeId.value
  {
    plan[day := if recipeId.Some? && recipeId.value != "" then [recipeId.value] else []]
  }

  /** `plan[day]?.[0] || ''`: the selector's value is the day's first id, or "",
      the empty option's value, when the day is missing, its list is empty or
      the id is "". */
  function Shown(plan: Plan, day: string): (value: string)
    ensures value != "" <==> day in plan && |plan[day]| > 0 && plan[day][0] != ""
    ensures value != "" ==> value == plan[day][0]
  {
    if day in plan && |plan[day]| > 0 then plan[day][0] else ""
  }

  /** After choosing an option the selector's value is that option. */
  lemma {:induction false} ShownAfterChoice(plan: Plan, day: string, value: string)
    ensures Shown(SetDay(plan, day, Chosen(value)), day) == value
  {
  }

  /** Choosing for one day leaves every other day's selector value as it was. */
  lemma {:induction false} ShownOnOtherDays(plan: Plan, day: string, other: string, recipeId: Option<string>)
    requires other != day
    ensures Shown(SetDay(plan, day, recipeId), other) == Shown(plan, other)
  {
  }

  // ------------------------------------------------------------ grocery

  /** One line of the grocery list. */
  datatype Item = Item(id: string, text: string, done: bool)

  /** The fields a grocery edit overrides; None leaves the field alone. */
  datatype Patch = Patch(text: Option<string>, done: Option<bool>)

  /** The patch of the text input: `{ text: e.target.value }`. */
  function TextPatch(text: string): Patch { Patch(Some(text), None) }

  /** The patch of the checkbox: `{ done: e.target.checked }`. */
  function DonePatch(done: bool): Patch { Patch(None, Some(done)) }

  /** `{ ...item, ...patch }`. */
  function Merge(item: Item, patch: Patch): Item {
    Item(item.id,
         if patch.text.Some? then patch.text.value else item.text,
         if patch.done.Some? then patch.done.value else item.done)
  }

  /** No line of the list has this id. */
  predicate IdUnused(items: seq<Item>, id: string) {
    forall k :: 0 <= k < |items| ==> items[k].id != id
  }

  /** No two lines share an id. */
  ghost predicate ItemIdsDistinct(items: seq<Item>) {
    forall j, k :: 0 <= j < k < |items| ==> items[j].id != items[k].id
  }

  /** `[...local, { id, text: '', done: false }]`: one blank line more at the
      end, the others unchanged and in order. */
  function AddItem(local: seq<Item>, id: string): (next: seq<Item>)
    ensures |next| == |local| + 1
    ensures next[..|local|] == local
    ensures next[|local|] == Item(id, "", false)
    ensures IdUnused(local, id) && ItemIdsDistinct(local) ==> ItemIdsDistinct(next)
  {
    local + [Item(id, "", false)]
  }

  /** `local.map(i => i.id === id ? { ...i, ...patch } : i)`: same length,
      order and ids; the lines with that id take the patched fields and keep
      the others; every other line is unchanged. */
  function UpdateItem(local: seq<Item>, id: string, patch: Patch): (next: seq<Item>)
    ensures |next| == |local|
    ensures forall k :: 0 <= k < |local| ==> next[k].id == local[k].id
    ensures forall k :: 0 <= k < |local| && local[k].id != id ==> next[k] == local[k]
    ensures forall k :: 0 <= k < |local| && local[k].id == id ==>
      && next[k].text == (if patch.text.Some? then patch.text.value else local[k].text)
      && next[k].done == (if patch.done.Some? then patch.done.value else local[k].done)
  {
    if local == [] then []
    else [if local[0].id == id then Merge(local[0], patch) else local[0]] + UpdateItem(local[1..], id, patch)
  }

  /** `local.filter(i => i.id !== id)`: no line with that id is left, every
      other line is kept, in its order. */
  function RemoveItem(local: seq<Item>, id: string): (next: seq<Item>)
    ensures IdUnused(next, id)
    ensures IdUnused(local, id) ==> next == local
  {
    if local == [] then []
    else if local[0].id == id then RemoveItem(local[1..], id)
    else [local[0]] + RemoveItem(local[1..], id)
  }

  /** Removing keeps exactly the lines with another id, in their order. */
  lemma {:induction false} RemoveItemKeepsOthers(local: seq<Item>, id: string)
    ensures forall x :: x in RemoveItem(local, id) <==> x in local && x.id != id
    ensures Subseq(RemoveItem(local, id), local)
  {
    if local != [] {
      RemoveItemKeepsOthers(local[1..], id);
      assert local == [local[0]] + local[1..];
      if local[0].id != id {
        var rest := RemoveItem(local[1..], id);
        assert RemoveItem(local, id) == [local[0]] + rest;
        assert ([local[0]] + rest)[1..] == rest;
      }
    }
  }

  /** Typing in a line's text input changes that line's text and nothing
      else: every done flag, every id and every other line stay as they were. */
  lemma {:induction false} TextEditChangesOnlyText(local: seq<Item>, id: string, text: string)
    ensures |UpdateItem(local, id, TextPatch(text))| == |local|
    ensures forall k :: 0 <= k < |local| ==>
      var line := UpdateItem(local, id, TextPatch(text))[k];
      && line.id == local[k].id && line.done == local[k].done
      && line.text == (if local[k].id == id then text else local[k].text)
  {
  }

  /** Ticking a line's checkbox changes that line's done flag and nothing
      else: every text, every id and every other line stay as they were. */
  lemma {:induction false} DoneEditChangesOnlyDone(local: seq<Item>, id: string, done: bool)
    ensures |UpdateItem(local, id, DonePatch(done))| == |local|
    ensures forall k :: 0 <= k < |local| ==>
      var line := UpdateItem(local, id, DonePatch(done))[k];
      && line.id == local[k].id && line.text == local[k].text
      && line.done == (if local[k].id == id then done else local[k].done)
  {
  }

  /** Removing keeps every copy of every line with another id, and none with
      that id: a repeated line is kept as often as it occurs. */
  lemma {:induction false} RemoveItemCounts(local: seq<Item>, id: string)
    ensures forall x :: multiset(RemoveItem(local, id))[x] == if x.id == id then 0 else multiset(local)[x]
  {
    if local != [] {
      var rest := RemoveItem(local[1..], id);
      RemoveItemCounts(local[1..], id);
      assert local == [local[0]] + local[1..];
      assert multiset(local) == multiset([local[0]]) + multiset(local[1..]);
      if local[0].id != id {
        assert RemoveItem(local, id) == [local[0]] + rest;
        assert multiset(RemoveItem(local, id)) == multiset([local[0]]) + multiset(rest);
      } else {
        assert RemoveItem(local, id) == rest;
      }
    }
  }

  /** Editing keeps the ids of every line, so distinct ids stay distinct. */
  lemma UpdateItemKeepsIdsDistinct(local: seq<Item>, id: string, patch: Patch)
    requires ItemIdsDistinct(local)
    ensures ItemIdsDistinct(UpdateItem(local, id, patch))
  {
  }

  /** Removing keeps a sub-list, so distinct ids stay distinct. */
  lemma {:induction false} RemoveItemKeepsIdsDistinct(local: seq<Item>, id: string)
    requires ItemIdsDistinct(local)
    ensures ItemIdsDistinct(RemoveItem(local, id))
  {
    if local != [] {
      var rest := RemoveItem(local[1..], id);
      RemoveItemKeepsIdsDistinct(local[1..], id);
      RemoveItemKeepsOthers(local[1..], id);
      if local[0].id != id {
        forall k | 0 <= k < |rest| ensures rest[k].id != local[0].id {
          assert rest[k] in local[1..];
        }
        assert RemoveItem(local, id) == [local[0]] + rest;
      }
    }
  }

  /** Removing from a list with a first line decides that line and goes on
      with the rest. */
  lemma RemoveItemCons(x: Item, rest: seq<Item>, id: string)
    ensures RemoveItem([x] + rest, id) == (if x.id == id then [] else [x]) + RemoveItem(rest, id)
  {
    assert ([x] + rest)[0] == x && ([x] + rest)[1..] == rest;
  }

  /** Removing a line just added under a fresh id gives back the list from
      before the addition. */
  lemma {:induction false} RemoveAfterAdd(local: seq<Item>, id: string)
    requires IdUnused(local, id)
    ensures RemoveItem(AddItem(local, id), id) == local
  {
    var line := Item(id, "", false);
    if local == [] {
      assert local + [line] == [line] + [];
      RemoveItemCons(line, [], id);
    } else {
      RemoveAfterAdd(local[1..], id);
      assert local + [line] == [local[0]] + (local[1..] + [line]);
      RemoveItemCons(local[0], local[1..] + [line], id);
      assert local == [local[0]] + local[1..];
    }
  }

  /** The grocery editor's local copy of the list (the `local` state), which
      the add, edit and remove buttons replace and "Save list" hands over. */
  class GroceryEditor {
    var local: seq<Item>

    /** `useState(items)`. */
    constructor (items: seq<Item>)
      ensures local == items
    {
      local := items;
    }

    /** "Add item", with `id` standing for `crypto.randomUUID()`. */
    method Add(id: string)
      modifies this
      ensures local == AddItem(old(local), id)
      ensures |local| == |old(local)| + 1 && local[..|old(local)|] == old(local)
      ensures IdUnused(old(local), id) && ItemIdsDistinct(old(local)) ==> ItemIdsDistinct(local)
    {
      local := local + [Item(id, "", false)];
    }

    /** Editing the text or the checkbox of the line with `id`. */
    method Update(id: string, patch: Patch)
      modifies this
      ensures local == UpdateItem(old(local), id, patch)
    {
      local := UpdateItem(local, id, patch);
    }

    /** The "x" button of the line with `id`. */
    method Remove(id: string)
      modifies this
      ensures local == RemoveItem(old(local), id)
      ensures forall k :: 0 <= k < |local| ==> local[k].id != id
    {
      local := RemoveItem(local, id);
    }

    /** "Save list": `onSave(local)`. */
    method Save() returns (items: seq<Item>)
      ensures items == local
    {
      items := local;
    }
  }

  // -------------------------------------------------------- recipe form

  /** The values of the recipe form's inputs. */
  datatype FormFields = FormFields(
    title: string, url: string, protein: string, tags: string, notes: string,
    kidFriendly: bool, glutenFree: bool)

  /** The form's initial and post-submit values: every text input empty and
      both checkboxes ticked. */
  const BlankForm: FormFields := FormFields("", "", "", "", "", true, true)

  /** One input's change handler. */
  datatype Edit =
    | SetTitle(title: string) | SetUrl(url: string) | SetProtein(protein: string)
    | SetTags(tags: string) | SetNotes(notes: string)
    | SetKid(kidFriendly: bool) | SetGF(glutenFree: bool)

  /** What the form hands to `onAdd`. */
  datatype NewRecipe = NewRecipe(
    title: string, url: string, protein: string, tags: seq<string>, notes: string,
    kidFriendly: bool, glutenFree: bool)

  /** The object built by `submit`: the inputs as they are, with the tags
      field parsed. */
  function Submission(f: FormFields): (r: NewRecipe)
    ensures forall k :: 0 <= k < |r.tags| ==> CleanTag(r.tags[k])
  {
    NewRecipe(f.title, f.url, f.protein, ParseTags(f.tags), f.notes, f.kidFriendly, f.glutenFree)
  }

  /** The recipe form's state: one field per `useState` hook. */
  class RecipeForm {
    var title: string
    var url: string
    var protein: string
    var tags: string
    var notes: string
    var kidFriendly: bool
    var glutenFree: bool

    function Fields(): FormFields
      reads this
    {
      FormFields(title, url, protein, tags, notes, kidFriendly, glutenFree)
    }

    constructor ()
      ensures Fields() == BlankForm
    {
      title, url, protein, tags, notes := "", "", "", "", "";
      kidFriendly, glutenFree := true, true;
    }

    /** The `onChange` handler of one input sets that input's state and no
        other. */
    method Change(e: Edit)
      modifies this
      ensures Fields() == match e
        case SetTitle(v) => old(Fields()).(title := v)
        case SetUrl(v) => old(Fields()).(url := v)
        case SetProtein(v) => old(Fields()).(protein := v)
        case SetTags(v) => old(Fields()).(tags := v)
        case SetNotes(v) => old(Fields()).(notes := v)
        case SetKid(v) => old(Fields()).(kidFriendly := v)
        case SetGF(v) => old(Fields()).(glutenFree := v)
    {
      match e
      case SetTitle(v) => title := v;
      case SetUrl(v) => url := v;
      case SetProtein(v) => protein := v;
      case SetTags(v) => tags := v;
      case SetNotes(v) => notes := v;
      case SetKid(v) => kidFriendly := v;
      case SetGF(v) => glutenFree := v;
    }

    /** Submitting: the browser refuses while the `required` title or URL input
        is empty; otherwise the form hands over its values and resets to the
        blank form. The submission is built from the values read before the
        reset, so resetting first gives the same result as the page's order. */
    method Submit() returns (sent: Option<NewRecipe>)
      modifies this
      ensures old(title) == "" || old(url) == "" ==> sent == None && Fields() == old(Fields())
      ensures old(title) != "" && old(url) != "" ==> sent == Some(Submission(old(Fields())))
      ensures old(title) != "" && old(url) != "" ==> Fields() == BlankForm
    {
      var f := Fields();
      if f.title == "" || f.url == "" {
        return None;
      }
      title, url, protein, tags, notes := "", "", "", "", "";
      kidFriendly, glutenFree := true, true;
      assert Fields() == BlankForm;
      sent := Some(Submission(f));
    }
  }
}
