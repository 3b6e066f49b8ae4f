/** Text fields that the manager fills line by line: the chat log and the room list
    are both built by appending each item followed by a line break. */
module Text {

  /** The text a field holds after appending every item, oldest first, each followed by "\n". */
  function Render(items: seq<string>): string
  {
    if items == [] then "" else items[0] + "\n" + Render(items[1..])
  }

  /** Appending one more item to the field extends the rendered text by that item and a line break. */
  lemma {:induction false} RenderSnoc(items: seq<string>, x: string)
    ensures Render(items + [x]) == Render(items) + x + "\n"
  {
    if items == [] {
      assert [x][1..] == [];
    } else {
      assert (items + [x])[1..] == items[1..] + [x];
      RenderSnoc(items[1..], x);
    }
  }

  /** The loop that clears a text field and appends each item followed by a line break. */
  method RenderLines(items: seq<string>) returns (text: string)
    ensures text == Render(items)
  {
    text := "";
    var i := 0;
    while i < |items|
      invariant 0 <= i <= |items|
      invariant text == Render(items[..i])
    {
      assert items[..i + 1] == items[..i] + [items[i]];
      RenderSnoc(items[..i], items[i]);
      text := text + items[i] + "\n";
      i := i + 1;
    }
    assert items[..i] == items;
  }

  /** An item that fits on one line of the field. */
  predicate SingleLine(s: string)
  {
    '\n' !in s
  }

  /** The length of the first line of `text`, up to (not including) its first line break. */
  function LineLength(text: string): (k: nat)
    ensures k <= |text|
    ensures k < |text| ==> text[k] == '\n'
    ensures forall j :: 0 <= j < k ==> text[j] != '\n'
  {
    if text == [] || text[0] == '\n' then 0 else 1 + LineLength(text[1..])
  }

  /** Splits a text field back into its lines; a last line without a break is kept as it is. */
  function Lines(text: string): seq<string>
    decreases |text|
  {
    if text == [] then []
    else
      var k := LineLength(text);
      if k == |text| then [text] else [text[..k]] + Lines(text[k + 1..])
  }

  /** Reading a rendered field back line by line gives exactly the items, in order, duplicates
      included, provided no item itself contains a line break. */
  lemma {:induction false} LinesOfRender(items: seq<string>)
    requires forall i :: 0 <= i < |items| ==> SingleLine(items[i])
    ensures Lines(Render(items)) == items
  {
    if items != [] {
      var head, rest := items[0], Render(items[1..]);
      var t := Render(items);
      assert t == head + "\n" + rest;
      assert t[|head|] == '\n';
      var k := LineLength(t);
      assert k == |head|;
      assert t[..k] == head;
      assert t[k + 1..] == rest;
      LinesOfRender(items[1..]);
    }
  }
}
