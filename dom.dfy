/** The rendered page as data: what `getComputedStyle`, `getAttribute`, `textContent`,
    `childNodes` and the selector queries would return. */
module Dom {
  import opened Js

  /** One element: its computed style, its attributes, its text content and how many child
      nodes it has. */
  datatype Element = Element(
    style: map<string, string>,
    attributes: map<string, string>,
    text: string,
    childNodes: nat)

  /** A component to audit: its root element, and for each selector the elements that
      `root.querySelectorAll(selector)` returns, in document order (none if absent). */
  datatype Component = Component(root: Element, matches: map<string, seq<Element>>)

  /** `getComputedStyle(e).getPropertyValue(name)`: the empty string for an unset property. */
  function Style(e: Element, name: string): string
  {
    if name in e.style then e.style[name] else ""
  }

  /** `e.getAttribute(name)`: `null` when the attribute is absent. */
  function Attr(e: Element, name: string): Option<string>
  {
    if name in e.attributes then Some(e.attributes[name]) else None
  }

  /** `c.querySelectorAll(selector)`. The empty selector, which a browser rejects with an
      exception, matches nothing here. */
  function QueryAll(c: Component, selector: string): (els: seq<Element>)
    ensures selector == "" ==> els == []
  {
    if selector != "" && selector in c.matches then c.matches[selector] else []
  }

  /** `c.querySelector(selector)`: the first match, or `null`. */
  function Query(c: Component, selector: string): Option<Element>
  {
    var all := QueryAll(c, selector);
    if all == [] then None else Some(all[0])
  }
}
