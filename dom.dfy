/**
 * The parsed document as the processors see it through SwiftSoup: the elements in
 * document order, attribute access, selector evaluation and `Elements.text()`.
 */
module Dom {
  import opened Wrappers
  import opened Text

  /**
   * One element: its tag name, the attributes whose access succeeds, the outcome of
   * `absUrl("href")` (absent when that call throws) and its whitespace-normalised text.
   */
  datatype Element = Element(tag: string, attributes: map<string, string>, absHref: Option<string>, text: string)

  /** A parsed document: its elements in document order. */
  type Document = seq<Element>

  /** `try? element.attr(key)`. */
  function Attr(e: Element, key: string): Option<string>
  {
    if key in e.attributes then Some(e.attributes[key]) else None
  }

  /** The CSS selectors the processors use: `tag`, `tag[attribute]` and `tag.class`. */
  datatype Selector =
    | ByTag(tag: string)
    | WithAttribute(tag: string, attribute: string)
    | WithClass(tag: string, className: string)

  predicate Matches(e: Element, s: Selector)
  {
    match s
    case ByTag(t) => e.tag == t
    case WithAttribute(t, a) => e.tag == t && a in e.attributes
    case WithClass(t, c) => e.tag == t && "class" in e.attributes && c in Split(e.attributes["class"], ' ')
  }

  /** `document.select(selector)`: exactly the matching elements, in document order. */
  function Select(doc: Document, s: Selector): (r: seq<Element>)
    ensures forall e :: e in r ==> e in doc && Matches(e, s)
    ensures forall i :: 0 <= i < |doc| && Matches(doc[i], s) ==> doc[i] in r
  {
    if doc == [] then [] else (if Matches(doc[0], s) then [doc[0]] else []) + Select(doc[1..], s)
  }

  /** `Elements.text()`: the texts in order, each preceded by a space when text came before it. */
  function ElementsText(es: seq<Element>): string
  {
    if es == [] then ""
    else
      var before := ElementsText(es[..|es| - 1]);
      (if before == "" then "" else before + " ") + es[|es| - 1].text
  }

  /** The texts of the elements, in order. */
  function Texts(es: seq<Element>): (r: seq<string>)
    ensures |r| == |es| && forall i :: 0 <= i < |es| ==> r[i] == es[i].text
  {
    seq(|es|, i requires 0 <= i < |es| => es[i].text)
  }

  /** A document whose only matching element is at `k` selects exactly that element. */
  lemma {:induction false} SelectSingle(doc: Document, s: Selector, k: nat)
    requires k < |doc| && Matches(doc[k], s)
    requires forall i :: 0 <= i < |doc| && i != k ==> !Matches(doc[i], s)
    ensures Select(doc, s) == [doc[k]]
  {
    var rest := doc[1..];
    if k == 0 {
      SelectNone(rest, s);
    } else {
      assert !Matches(doc[0], s);
      SelectSingle(rest, s, k - 1);
      assert rest[k - 1] == doc[k];
    }
  }

  /** A document part holding no matching element selects nothing. */
  lemma SelectNone(doc: Document, s: Selector)
    requires forall i :: 0 <= i < |doc| ==> !Matches(doc[i], s)
    ensures Select(doc, s) == []
  {
  }

  /** When every element has text, `Elements.text()` is the texts joined by single spaces. */
  lemma {:induction false} ElementsTextJoins(es: seq<Element>)
    requires forall i :: 0 <= i < |es| ==> es[i].text != ""
    ensures ElementsText(es) == Join(Texts(es), ' ')
  {
    if es != [] {
      var init := es[..|es| - 1];
      ElementsTextJoins(init);
      assert Texts(es) == Texts(init) + [es[|es| - 1].text];
      JoinSnoc(Texts(init), es[|es| - 1].text, ' ');
      if init != [] {
        assert |Join(Texts(init), ' ')| >= |Texts(init)[0]| > 0;
      }
    }
  }
}
