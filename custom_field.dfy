/**
 * The base field adapter: a custom form-element type with a name and a
 * title, the field object it is currently set up for, and the four entry
 * points the host plugin calls (write-mode build, read-mode display,
 * storage datatype, type selector).
 */
module CustomField {
  import opened PhpArray

  /**
   * A field definition as the host hands it over: its name, the form element
   * type it uses, its decoded stored value, its option and attribute arrays,
   * and the output the write-mode build leaves in it.
   */
  class FieldObject {
    var name: string
    var formElement: string
    var value: FieldValue
    var options: PArray<string>
    var attributes: PArray<string>
    var output: string

    constructor (name: string, formElement: string, value: FieldValue,
                 options: PArray<string>, attributes: PArray<string>)
      ensures this.name == name && this.formElement == formElement && this.value == value
      ensures this.options == options && this.attributes == attributes && output == ""
    {
      this.name := name;
      this.formElement := formElement;
      this.value := value;
      this.options := options;
      this.attributes := attributes;
      output := "";
    }
  }

  /** Which element type an adapter is; the log table overrides the storage datatype. */
  datatype Kind = BaseKind | HtmlKind | LogTableKind

  /**
   * `element_datatype`: the MySQL column type each kind asks for; the base
   * type's small text column, which the log table overrides with a full one.
   */
  function ElementDatatype(kind: Kind): (r: string)
    ensures r == "TEXT" <==> kind == LogTableKind
    ensures r == "TINYTEXT" <==> kind != LogTableKind
  {
    if kind == LogTableKind then "TEXT" else "TINYTEXT"
  }

  /** A custom form-element type registered with the host. */
  class CustomField {
    const kind: Kind
    const name: string
    const title: string
    var field: FieldObject?

    constructor (kind: Kind, name: string, title: string)
      ensures this.kind == kind && this.name == name && this.title == title && field == null
    {
      this.kind := kind;
      this.name := name;
      this.title := title;
      field := null;
    }

    /**
     * The datatype filter: an element of this type gets this type's own
     * datatype; any other element keeps the datatype it came with.
     */
    function SetDatatype(defaultType: string, formElement: string): (r: string)
      ensures formElement == name && kind == LogTableKind ==> r == "TEXT"
      ensures formElement == name && kind != LogTableKind ==> r == "TINYTEXT"
      ensures formElement != name ==> r == defaultType
    {
      if formElement == name then ElementDatatype(kind) else defaultType
    }

    /**
     * The selector filter: when the type is public, its name is listed with
     * its title; no other entry of the selector changes.
     */
    method AddElementToSelector(types: PArray<string>, isPublic: bool) returns (r: PArray<string>)
      ensures isPublic ==> Get(r, StrKey(name)) == Some(title)
      ensures !isPublic ==> r == types
      ensures forall k :: k != StrKey(name) ==> Get(r, k) == Get(types, k)
      ensures forall k :: HasKey(r, k) <==> HasKey(types, k) || (isPublic && k == StrKey(name))
      ensures isPublic && HasKey(types, StrKey(name)) ==>
                |r| == |types| && forall i :: 0 <= i < |types| ==> r[i].key == types[i].key
      ensures isPublic && !HasKey(types, StrKey(name)) ==> r == types + [Entry(StrKey(name), title)]
    {
      r := types;
      if isPublic {
        r := Put(r, StrKey(name), title);
      }
      forall k ensures HasKey(r, k) <==> HasKey(types, k) || (isPublic && k == StrKey(name)) {
        assert Get(r, k).Some? <==> HasKey(r, k);
        assert Get(types, k).Some? <==> HasKey(types, k);
      }
    }

    /** Remembers the field object the adapter works on next. */
    method SetupField(f: FieldObject)
      modifies this`field
      ensures field == f
    {
      field := f;
    }

    /**
     * The read-mode filter: an element of another type displays as the empty
     * string, whatever display it came with, and leaves the adapter alone; an
     * element of this type is set up and shown as `rendered`, the type's own
     * display of it.
     */
    method DisplayFormElement(display: string, f: FieldObject, rendered: string) returns (r: string)
      modifies this`field
      ensures f.formElement != name ==> r == "" && field == old(field)
      ensures f.formElement == name ==> r == rendered && field == f
    {
      r := "";
      if f.formElement == name {
        SetupField(f);
        r := rendered;
      }
    }
  }

  /** The host applies the datatype filter of every registered type in turn. */
  function ChainDatatype(types: seq<CustomField>, defaultType: string, formElement: string): string
  {
    if types == [] then defaultType
    else ChainDatatype(types[1..], types[0].SetDatatype(defaultType, formElement), formElement)
  }

  /**
   * Whatever order the types are registered in, when their names are distinct
   * the element ends up with the datatype of the type it belongs to, or with
   * the host's default when it belongs to none.
   */
  lemma {:induction false} ChainResolvesDatatype(types: seq<CustomField>, defaultType: string, formElement: string)
    requires forall i, j :: 0 <= i < j < |types| ==> types[i].name != types[j].name
    ensures forall i :: 0 <= i < |types| && types[i].name == formElement ==>
              ChainDatatype(types, defaultType, formElement) == ElementDatatype(types[i].kind)
    ensures (forall i :: 0 <= i < |types| ==> types[i].name != formElement) ==>
              ChainDatatype(types, defaultType, formElement) == defaultType
  {
    if types != [] {
      var rest := types[1..];
      assert forall i :: 1 <= i < |types| ==> types[i] == rest[i - 1];
      ChainResolvesDatatype(rest, types[0].SetDatatype(defaultType, formElement), formElement);
      if types[0].name == formElement {
        ChainResolvesDatatype(rest, ElementDatatype(types[0].kind), formElement);
      }
    }
  }
}
