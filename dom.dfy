/**
 * The part of the browser page the payment and form code touches: elements found by id, each
 * with its text content, its input value, and for radio buttons whether it is checked.
 */
module Dom {
  import opened Wrappers

  /** One element: `textContent`, `value`, `type === "radio"` and `checked`. */
  datatype Element = Element(text: string, value: string, isRadio: bool, checked: bool)

  /** `document.getElementById(id).textContent`, or `None` when there is no such element. */
  function TextAt(els: map<string, Element>, id: string): (t: Option<string>)
    ensures t.Some? <==> id in els
    ensures t.Some? ==> t.value == els[id].text
  {
    if id in els then Some(els[id].text) else None
  }

  /** `document.getElementById(id).value`, or `None` when there is no such element. */
  function ValueAt(els: map<string, Element>, id: string): (v: Option<string>)
    ensures v.Some? <==> id in els
    ensures v.Some? ==> v.value == els[id].value
  {
    if id in els then Some(els[id].value) else None
  }

  /** The page after setting the text of element `id`, when it exists; nothing else changes. */
  function WithText(els: map<string, Element>, id: string, t: string): (r: map<string, Element>)
    ensures r.Keys == els.Keys
    ensures id in els ==> r[id] == els[id].(text := t)
    ensures forall k | k in els && k != id :: r[k] == els[k]
  {
    if id in els then els[id := els[id].(text := t)] else els
  }

  /** The page after setting the value of element `id`, when it exists; nothing else changes. */
  function WithValue(els: map<string, Element>, id: string, v: string): (r: map<string, Element>)
    ensures r.Keys == els.Keys
    ensures id in els ==> r[id] == els[id].(value := v)
    ensures forall k | k in els && k != id :: r[k] == els[k]
  {
    if id in els then els[id := els[id].(value := v)] else els
  }

  /** The page after setting `checked` of element `id`, when it exists; nothing else changes. */
  function WithChecked(els: map<string, Element>, id: string, c: bool): (r: map<string, Element>)
    ensures r.Keys == els.Keys
    ensures id in els ==> r[id] == els[id].(checked := c)
    ensures forall k | k in els && k != id :: r[k] == els[k]
  {
    if id in els then els[id := els[id].(checked := c)] else els
  }

  /** The document: its elements by id. */
  class Page {
    var elements: map<string, Element>

    constructor(elements: map<string, Element>)
      ensures this.elements == elements
    {
      this.elements := elements;
    }

    /** `document.getElementById(id).textContent = t` on an element that exists. */
    method SetText(id: string, t: string)
      requires id in elements
      modifies this
      ensures elements == WithText(old(elements), id, t)
    {
      elements := elements[id := elements[id].(text := t)];
    }

    /** `document.getElementById(id).value = v` on an element that exists. */
    method SetValue(id: string, v: string)
      requires id in elements
      modifies this
      ensures elements == WithValue(old(elements), id, v)
    {
      elements := elements[id := elements[id].(value := v)];
    }

    /** `document.getElementById(id).checked = c` on an element that exists. */
    method SetChecked(id: string, c: bool)
      requires id in elements
      modifies this
      ensures elements == WithChecked(old(elements), id, c)
    {
      elements := elements[id := elements[id].(checked := c)];
    }
  }
}
