/** The Result Set Management (XEP-0059) `set` block both encoders append
    to a populated result: the `first` item with its `index`, the `last`
    item and the `count` of the whole result set. */
module Rsm {
  import opened JavaInt
  import opened Xml

  /** An RSM `set` block: `first` with its `index` and text, `last`, `count`;
      the children carry the RSM `xmlns` only when `qualified`. */
  function RsmSet(firstIndex: i32, firstValue: string, lastValue: string, count: i32, qualified: bool): (r: seq<Piece>)
    ensures |r| > 0 && r[0] == HalfOpen("set") && r[|r| - 1] == Close("set")
  {
    var ns := if qualified then [Attribute("xmlns", RSM_NS)] else [];
    [HalfOpen("set"), Attribute("xmlns", RSM_NS), RightAngle]
    + TextElementXml("first", ns + [Attribute("index", Decimal(firstIndex as int))], firstValue)
    + TextElementXml("last", ns, lastValue)
    + TextElementXml("count", ns, Decimal(count as int))
    + [Close("set")]
  }

  /** The namespace keys each child of the `set` block carries. */
  function ChildNamespaceKeys(qualified: bool): seq<string> {
    if qualified then ["xmlns"] else []
  }

  /** The attribute keys of the `set` block, in order: the RSM namespace on
      `set`, then on each child again when `qualified`, and the `index` of
      `first`. */
  lemma RsmSetKeys(firstIndex: i32, firstValue: string, lastValue: string, count: i32, qualified: bool)
    ensures AttributeKeys(RsmSet(firstIndex, firstValue, lastValue, count, qualified))
         == ["xmlns"] + (ChildNamespaceKeys(qualified) + ["index"]) + ChildNamespaceKeys(qualified) + ChildNamespaceKeys(qualified)
  {
    var ns := if qualified then [Attribute("xmlns", RSM_NS)] else [];
    var index := [Attribute("index", Decimal(firstIndex as int))];
    assert AttributeKeys(ns) == ChildNamespaceKeys(qualified);
    assert AttributeKeys(index) == ["index"];
    AttributeKeysAppend(ns, index);
    KeysOfThree(HalfOpen("set"), Attribute("xmlns", RSM_NS), RightAngle);
    TextElementKeys("first", ns + index, firstValue);
    TextElementKeys("last", ns, lastValue);
    TextElementKeys("count", ns, Decimal(count as int));
    assert AttributeKeys([Close("set")]) == [];
    KeysOfFive([HalfOpen("set"), Attribute("xmlns", RSM_NS), RightAngle],
               TextElementXml("first", ns + index, firstValue),
               TextElementXml("last", ns, lastValue),
               TextElementXml("count", ns, Decimal(count as int)),
               [Close("set")]);
    assert PieceKeys(HalfOpen("set")) + PieceKeys(Attribute("xmlns", RSM_NS)) + PieceKeys(RightAngle) == ["xmlns"];
  }
}
