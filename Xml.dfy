/** The element tree the two reports return (an XElement with its
    attributes and child elements; no text content is used). */
module Xml {

  datatype Attribute = Attribute(name: string, value: string)

  datatype Element = Element(name: string, attributes: seq<Attribute>, children: seq<Element>)
}
