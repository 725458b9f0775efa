/**
 * The inline token node of src/nodes/CustomeNode.ts: a text node that
 * carries a `value` key and an optional `moreDetails` payload, shows itself
 * as `{value}`, serialises to the host's text-node JSON extended with its
 * two fields, and round-trips through a marked `span` element.
 *
 * The host's text-node base is flattened into the class: `text`, `format`,
 * `detail`, `mode`, `style` and `key` are plain fields, and the base setters
 * the source calls are methods that change one field each.
 */
module Nodes {
  import opened Wrappers

  /** The payload the plugin stores in `moreDetails`: a `CustomData` metadata record. */
  datatype Metadata = Metadata(id: string, name: string, url: string)

  /** The host's text modes ("normal", "token", "segmented"). */
  datatype TextMode = Normal | Token | Segmented

  type NodeKey = string

  /** What `getType` returns and the serialised `type` field. */
  const CustomeNodeType: string := "custome-node"

  /** The attribute that marks an exported element. */
  const CustomeAttribute: string := "data-lexical-custome"

  /** The bit of `detail` that the host's `toggleDirectionless` flips. */
  const DirectionlessBit: nat := 1

  /** All the fields of a node, as a value. */
  datatype NodeState = NodeState(
    value: string,
    moreDetails: Option<Metadata>,
    text: string,
    format: nat,
    detail: nat,
    mode: TextMode,
    style: string,
    key: Option<NodeKey>)

  /** The host's serialised text node. */
  datatype SerializedTextNode = SerializedTextNode(
    detail: nat, format: nat, mode: TextMode, style: string, text: string, nodeType: string, version: nat)

  /** The base record spread together with `value` and `moreDetails`; `type` and `version` replaced. */
  datatype SerializedCustomeNode = SerializedCustomeNode(
    detail: nat, format: nat, mode: TextMode, style: string, text: string, nodeType: string, version: nat,
    value: string, moreDetails: Option<Metadata>)

  /** The text-node part of a serialised custome node. */
  function BaseOf(j: SerializedCustomeNode): SerializedTextNode {
    SerializedTextNode(j.detail, j.format, j.mode, j.style, j.text, j.nodeType, j.version)
  }

  /** Flips the directionless bit of a `detail` word (exclusive or with 1). */
  function ToggleBit(detail: nat): (d: nat)
    ensures d % 2 != detail % 2 && d / 2 == detail / 2
  {
    if detail % 2 == 0 then detail + 1 else detail - 1
  }

  /** An element as the conversion code sees it: tag name, attributes and text content. */
  datatype DomElement = DomElement(tag: string, attributes: map<string, string>, textContent: Option<string>)

  /** An entry of the conversion map; its conversion is always `ConvertCustomeElement`. */
  datatype DomConversion = DomConversion(priority: nat)

  /** The state `CreateCustomeNode(value, moreDetails)` produces. */
  function CreatedState(value: string, moreDetails: Option<Metadata>): NodeState {
    NodeState(value, moreDetails, value, 0, ToggleBit(0), Normal, "", None)
  }

  /** The state `ImportJSON(j)` produces: the created node, then the five setters. */
  function ImportedState(j: SerializedCustomeNode): NodeState {
    CreatedState(j.value, j.moreDetails)
      .(text := j.text)
      .(format := j.format)
      .(detail := j.detail)
      .(mode := j.mode)
      .(style := j.style)
  }

  class CustomeNode {
    var value: string
    var moreDetails: Option<Metadata>
    var text: string
    var format: nat
    var detail: nat
    var mode: TextMode
    var style: string
    var key: Option<NodeKey>

    function State(): NodeState
      reads this
    {
      NodeState(value, moreDetails, text, format, detail, mode, style, key)
    }

    /** The text is `value` when none is given; the base fields start at the host's defaults. */
    constructor (value: string, moreDetails: Option<Metadata>, text: Option<string>, key: Option<NodeKey>)
      ensures State() == NodeState(value, moreDetails, if text.Some? then text.value else value, 0, 0, Normal, "", key)
    {
      this.text := if text.Some? then text.value else value;
      this.key := key;
      this.format := 0;
      this.detail := 0;
      this.mode := Normal;
      this.style := "";
      this.value := value;
      this.moreDetails := moreDetails;
    }

    static function GetType(): (t: string)
      ensures t == "custome-node"
    {
      CustomeNodeType
    }

    /** A new node built from this node's value, payload, text and key. */
    static method Clone(node: CustomeNode) returns (c: CustomeNode)
      ensures fresh(c)
      ensures c.State() == NodeState(node.value, node.moreDetails, node.text, 0, 0, Normal, "", node.key)
    {
      c := new CustomeNode(node.value, node.moreDetails, Some(node.text), node.key);
    }

    method SetTextContent(text: string)
      modifies this
      ensures State() == old(State()).(text := text)
    {
      this.text := text;
    }

    method SetFormat(format: nat)
      modifies this
      ensures State() == old(State()).(format := format)
    {
      this.format := format;
    }

    method SetDetail(detail: nat)
      modifies this
      ensures State() == old(State()).(detail := detail)
    {
      this.detail := detail;
    }

    method SetMode(mode: TextMode)
      modifies this
      ensures State() == old(State()).(mode := mode)
    {
      this.mode := mode;
    }

    method SetStyle(style: string)
      modifies this
      ensures State() == old(State()).(style := style)
    {
      this.style := style;
    }

    method ToggleDirectionless()
      modifies this
      ensures State() == old(State()).(detail := ToggleBit(old(detail)))
    {
      detail := ToggleBit(detail);
    }

    /** Rebuilds a node from its serialised form. */
    static method ImportJSON(j: SerializedCustomeNode) returns (node: CustomeNode)
      ensures fresh(node) && node.State() == ImportedState(j)
    {
      node := CreateCustomeNode(j.value, j.moreDetails);
      node.SetTextContent(j.text);
      node.SetFormat(j.format);
      node.SetDetail(j.detail);
      node.SetMode(j.mode);
      node.SetStyle(j.style);
    }

    /** The host text node's own serialised form. */
    function BaseExportJSON(): SerializedTextNode
      reads this
    {
      SerializedTextNode(detail, format, mode, style, text, "text", 1)
    }

    /** The base record spread, then `value`, `moreDetails`, `type` and `version`. */
    function ExportJSON(): (j: SerializedCustomeNode)
      reads this
      ensures BaseOf(j) == BaseExportJSON().(nodeType := GetType(), version := 1)
      ensures j.value == value && j.moreDetails == moreDetails
      ensures ImportedState(j) == State().(key := None)
    {
      var base := BaseExportJSON();
      SerializedCustomeNode(base.detail, base.format, base.mode, base.style, base.text,
                            CustomeNodeType, 1, value, moreDetails)
    }

    /** The text `createDOM` puts in the element: the value between braces. */
    function DisplayText(): (s: string)
      reads this
      ensures |s| == |value| + 2
      ensures s[0] == '{' && s[|s| - 1] == '}' && s[1..|s| - 1] == value
    {
      "{" + value + "}"
    }

    /** A `span` marked with the custome attribute whose text content is the node's text. */
    function ExportDOM(): (e: DomElement)
      reads this
      ensures e.tag == "span" && e.attributes == map[CustomeAttribute := "true"] && e.textContent == Some(text)
      ensures ImportDOM(e) == Some(DomConversion(1))
    {
      DomElement("span", map[CustomeAttribute := "true"], Some(text))
    }

    function IsTextEntity(): (b: bool)
      ensures b
    {
      true
    }

    function CanInsertTextBefore(): (b: bool)
      ensures !b
    {
      false
    }

    function CanInsertTextAfter(): (b: bool)
      ensures !b
    {
      false
    }
  }

  /** A new node with the given value and payload, in normal mode, toggled directionless. */
  method CreateCustomeNode(value: string, moreDetails: Option<Metadata>) returns (node: CustomeNode)
    ensures fresh(node) && node.State() == CreatedState(value, moreDetails)
  {
    node := new CustomeNode(value, moreDetails, None, None);
    node.SetMode(Normal);
    node.ToggleDirectionless();
  }

  /**
   * The conversion map of `importDOM`, looked up by tag: only a `span`
   * carrying the custome attribute is converted.
   */
  function ImportDOM(element: DomElement): (r: Option<DomConversion>)
    ensures r.Some? <==> element.tag == "span" && CustomeAttribute in element.attributes
    ensures r.Some? ==> r.value.priority == 1
  {
    if element.tag != "span" then None
    else if CustomeAttribute !in element.attributes then None
    else Some(DomConversion(1))
  }

  /** Builds a node from an element's text content, which becomes both its value and its text. */
  method ConvertCustomeElement(element: DomElement) returns (r: Option<CustomeNode>)
    ensures r.Some? <==> element.textContent.Some?
    ensures r.Some? ==> fresh(r.value) && r.value.State() == CreatedState(element.textContent.value, None)
  {
    match element.textContent
    case None =>
      r := None;
    case Some(content) =>
      var node := CreateCustomeNode(content, None);
      r := Some(node);
  }

  /**
   * Export to the DOM and import back: the element is recognised, and the
   * new node's value and text are the old node's text, its payload is gone.
   */
  method DOMRoundTrip(node: CustomeNode) returns (r: Option<CustomeNode>)
    ensures ImportDOM(node.ExportDOM()) == Some(DomConversion(1))
    ensures r.Some? && r.value != node
    ensures r.value.value == node.text && r.value.text == node.text && r.value.moreDetails == None
  {
    var element := node.ExportDOM();
    r := ConvertCustomeElement(element);
  }

  // ---------------------------------------------------------------------------
  // Lemmas
  // ---------------------------------------------------------------------------

  /** A created node's text is its value; it is in normal mode with the directionless bit set. */
  lemma CreatedStateShape(value: string, moreDetails: Option<Metadata>)
    ensures var s := CreatedState(value, moreDetails);
      && s.text == s.value == value && s.moreDetails == moreDetails
      && s.mode == Normal && s.detail == DirectionlessBit && s.format == 0 && s.style == ""
  {
  }

  /** Importing overwrites every default of the created node with the serialised field. */
  lemma ImportedStateFields(j: SerializedCustomeNode)
    ensures var s := ImportedState(j);
      && s.value == j.value && s.moreDetails == j.moreDetails && s.text == j.text
      && s.format == j.format && s.detail == j.detail && s.mode == j.mode && s.style == j.style
      && s.key == None
  {
  }

  /** The serialised node is the base record with `type` and `version` replaced, plus the two fields. */
  lemma ExportJSONExtendsBase(node: CustomeNode)
    ensures var j := node.ExportJSON();
      && BaseOf(j) == node.BaseExportJSON().(nodeType := CustomeNodeType, version := 1)
      && j.value == node.value && j.moreDetails == node.moreDetails
      && j.nodeType == CustomeNode.GetType()
  {
  }

  /** Importing an exported node gives back every field except the key. */
  lemma JSONRoundTrip(node: CustomeNode)
    ensures ImportedState(node.ExportJSON()) == node.State().(key := None)
  {
  }

  /** The display text depends on the value alone. */
  lemma DisplayTextIgnoresText(a: CustomeNode, b: CustomeNode)
    requires a.value == b.value
    ensures a.DisplayText() == b.DisplayText()
  {
  }

  /** The node is a text entity that refuses typed text on both sides. */
  lemma EntityFlags(node: CustomeNode)
    ensures node.IsTextEntity() && !node.CanInsertTextBefore() && !node.CanInsertTextAfter()
  {
  }
}
