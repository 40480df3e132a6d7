/** The two history views: the history window (src/history.jsx) and the history modal
    (src/components/ui/history-modal.jsx).  Both filter the loaded transcriptions by a
    search text, delete by id and copy an item's best text; they differ in which text
    blocks they show.  Only ASCII letters are case-folded here.
 */
module History {
  import opened Wrappers
  import opened Text

  /** A loaded transcription row; `text` is NOT NULL in the table, the other texts may
      be null. */
  datatype Item = Item(id: nat, text: string, rawText: Option<string>, processedText: Option<string>)

  /** A possibly null text is truthy. */
  predicate Truthy(t: Option<string>) {
    t.Some? && t.value != []
  }

  // ---------------------------------------------------------------------------
  // Search

  /** `item.text?.toLowerCase().includes(q.toLowerCase()) ||
      item.processed_text?.toLowerCase().includes(q.toLowerCase())`. */
  predicate Matches(item: Item, query: string) {
    || Contains(ToLowerAscii(item.text), ToLowerAscii(query))
    || (item.processedText.Some? && Contains(ToLowerAscii(item.processedText.value), ToLowerAscii(query)))
  }

  /** The items kept by `filter(Matches)`, in their order. */
  function Keep(items: seq<Item>, query: string): (r: seq<Item>)
    ensures |r| <= |items|
    ensures forall x :: x in r <==> x in items && Matches(x, query)
    decreases |items|
  {
    if items == [] then []
    else (if Matches(items[0], query) then [items[0]] else []) + Keep(items[1..], query)
  }

  /** The search effect: a blank query shows everything, any other the matching items. */
  function Search(items: seq<Item>, query: string): (r: seq<Item>)
    ensures IsBlank(query) ==> r == items
    ensures !IsBlank(query) ==> forall x :: x in r <==> x in items && Matches(x, query)
  {
    if IsBlank(query) then items else Keep(items, query)
  }

  /** Keeping distributes over concatenation: the items keep their relative order. */
  lemma {:induction false} KeepAppend(a: seq<Item>, b: seq<Item>, query: string)
    ensures Keep(a + b, query) == Keep(a, query) + Keep(b, query)
    decreases |a|
  {
    if a == [] {
      assert a + b == b;
    } else {
      assert (a + b)[0] == a[0];
      assert (a + b)[1..] == a[1..] + b;
      KeepAppend(a[1..], b, query);
    }
  }

  /** Searching the result of a search again changes nothing. */
  lemma {:induction false} KeepIdempotent(items: seq<Item>, query: string)
    ensures Keep(Keep(items, query), query) == Keep(items, query)
    decreases |items|
  {
    if items != [] {
      var head := if Matches(items[0], query) then [items[0]] else [];
      KeepIdempotent(items[1..], query);
      KeepAppend(head, Keep(items[1..], query), query);
      assert Keep(head, query) == head by {
        if head != [] {
          assert head[1..] == [];
        }
      }
    }
  }

  /** Matching ignores the case of ASCII letters in the query. */
  lemma SearchIgnoresCase(items: seq<Item>, query: string)
    ensures Search(items, ToLowerAscii(query)) == Search(items, query)
  {
    ToLowerIdempotent(query);
    LowerBlank(query);
    if !IsBlank(query) {
      KeepSameMatches(items, ToLowerAscii(query), query);
    }
  }

  lemma {:induction false} KeepSameMatches(items: seq<Item>, q1: string, q2: string)
    requires ToLowerAscii(q1) == ToLowerAscii(q2)
    ensures Keep(items, q1) == Keep(items, q2)
    decreases |items|
  {
    if items != [] {
      KeepSameMatches(items[1..], q1, q2);
    }
  }

  /** Lower-casing ASCII letters does not change whether a text is blank: it changes no
      white space. */
  lemma LowerBlank(s: string)
    ensures IsBlank(ToLowerAscii(s)) <==> IsBlank(s)
  {
    BlankIffAllSpace(s);
    BlankIffAllSpace(ToLowerAscii(s));
    LowerAllSpace(s);
  }

  lemma LowerAllSpace(s: string)
    ensures AllSatisfy(ToLowerAscii(s), IsJsSpace) <==> AllSatisfy(s, IsJsSpace)
  {
    var l := ToLowerAscii(s);
    forall i | 0 <= i < |s| ensures IsJsSpace(l[i]) <==> IsJsSpace(s[i]) {
      LowerKeepsSpace(s[i]);
    }
  }

  lemma LowerKeepsSpace(c: char)
    ensures IsJsSpace(if 'A' <= c <= 'Z' then (c as int + 32) as char else c) <==> IsJsSpace(c)
  {
  }

  // ---------------------------------------------------------------------------
  // Delete and copy

  /** `prev.filter(item => item.id !== id)`. */
  function Delete(items: seq<Item>, id: nat): (r: seq<Item>)
    ensures forall x :: x in r <==> x in items && x.id != id
    ensures |r| <= |items|
    decreases |items|
  {
    if items == [] then []
    else (if items[0].id != id then [items[0]] else []) + Delete(items[1..], id)
  }

  /** Deleting while a search is shown gives the same list as searching after the delete. */
  lemma {:induction false} DeleteCommutesWithSearch(items: seq<Item>, id: nat, query: string)
    ensures Search(Delete(items, id), query) == Delete(Search(items, query), id)
    decreases |items|
  {
    if !IsBlank(query) && items != [] {
      DeleteCommutesWithSearch(items[1..], id, query);
      var x := items[0];
      var dx := if x.id != id then [x] else [];
      var kx := if Matches(x, query) then [x] else [];
      KeepAppend(dx, Delete(items[1..], id), query);
      DeleteAppend(kx, Keep(items[1..], query), id);
      assert Keep(dx, query) == Delete(kx, id) by {
        if dx != [] { assert dx[1..] == []; }
        if kx != [] { assert kx[1..] == []; }
      }
    }
  }

  lemma {:induction false} DeleteAppend(a: seq<Item>, b: seq<Item>, id: nat)
    ensures Delete(a + b, id) == Delete(a, id) + Delete(b, id)
    decreases |a|
  {
    if a == [] {
      assert a + b == b;
    } else {
      assert (a + b)[0] == a[0];
      assert (a + b)[1..] == a[1..] + b;
      DeleteAppend(a[1..], b, id);
    }
  }

  /** The text the copy button copies: `processed_text || text`. */
  function CopyText(item: Item): (t: string)
    ensures Truthy(item.processedText) ==> t == item.processedText.value
    ensures !Truthy(item.processedText) ==> t == item.text
  {
    if Truthy(item.processedText) then item.processedText.value else item.text
  }

  /** How the modal copies: through its `onCopy` prop when given, else the clipboard call,
      else not at all. */
  datatype CopyVia = ViaProp(text: string) | ViaClipboard(text: string) | NoCopy

  function ModalCopy(item: Item, hasOnCopy: bool, apiPresent: bool): (c: CopyVia)
    ensures hasOnCopy ==> c == ViaProp(CopyText(item))
    ensures !hasOnCopy && apiPresent ==> c == ViaClipboard(CopyText(item))
    ensures c.NoCopy? <==> !hasOnCopy && !apiPresent
  {
    if hasOnCopy then ViaProp(CopyText(item))
    else if apiPresent then ViaClipboard(CopyText(item))
    else NoCopy
  }

  // ---------------------------------------------------------------------------
  // Text blocks

  /** The history window's AI block: a processed text whose trim differs from the raw
      text's. */
  predicate WindowShowsAi(item: Item) {
    Truthy(item.processedText) && Trim(item.processedText.value) != Trim(item.rawText.GetOr([]))
  }

  /** The history window's raw block: a raw text whose trim differs from the text's. */
  predicate WindowShowsRaw(item: Item) {
    Truthy(item.rawText) && Trim(item.rawText.value) != Trim(item.text)
  }

  /** The modal's text block. */
  predicate ModalShowsText(item: Item) {
    item.text != []
  }

  /** The modal's AI block: a processed text that differs from the text, untrimmed. */
  predicate ModalShowsAi(item: Item) {
    Truthy(item.processedText) && item.processedText.value != item.text
  }

  /** The modal's footer with the count appears only over a non-empty list. */
  function Footer(filtered: seq<Item>): (count: Option<nat>)
    ensures count.Some? <==> |filtered| > 0
    ensures count.Some? ==> count.value == |filtered|
  {
    if |filtered| > 0 then Some(|filtered|) else None
  }

  /** When the raw text trims to the text, an AI block in the window is also an AI block
      in the modal; the converse fails for texts that differ only in surrounding space. */
  lemma WindowAiImpliesModalAi(item: Item)
    ensures WindowShowsAi(item) && Trim(item.rawText.GetOr([])) == Trim(item.text) ==> ModalShowsAi(item)
  {
  }

  lemma ModalAiWithoutWindowAi()
    ensures var item := Item(1, "好", Some("好"), Some("好 "));
      ModalShowsAi(item) && !WindowShowsAi(item)
  {
    TrimSpaced();
    TrimSingle();
  }

  /** Trimming drops the trailing space of "好 ". */
  lemma TrimSpaced()
    ensures Trim("好 ") == "好"
  {
    var s := "好 ";
    assert s[0] == '好' && s[1] == ' ';
    assert !IsJsSpace(s[0]);
    assert DropLeading(s, IsJsSpace) == s;
    assert s[..1] == "好";
    assert DropTrailing(s[..1], IsJsSpace) == s[..1];
    assert DropTrailing(s, IsJsSpace) == s[..1];
  }

  /** "好" has no space to trim. */
  lemma TrimSingle()
    ensures Trim("好") == "好"
  {
    var s := "好";
    assert |s| == 1 && !IsJsSpace(s[0]);
    assert DropLeading(s, IsJsSpace) == s;
    assert DropTrailing(s, IsJsSpace) == s;
  }
}
