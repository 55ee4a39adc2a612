/**
 * The raw-HTML field type: its markup is an option of the field definition,
 * named 'html' or given bare as the first option, and is emitted verbatim.
 */
module HtmlField {
  import opened PhpArray
  import opened CustomField

  /** The named option that holds the markup. */
  const HtmlKey: Key := StrKey("html")
  /** The bare first option, used when there is no named one. */
  const BareKey: Key := IntKey(0)

  /** What building the element does to the options: the output, the options left, the key consumed. */
  datatype Extraction = Extraction(output: string, rest: PArray<string>, consumed: Option<Key>)

  /**
   * Takes the markup out of the options: the 'html' option when set, else
   * option 0 when set, else nothing. The consumed option is removed and every
   * other option keeps its value.
   */
  function ExtractHtml(options: PArray<string>): (r: Extraction)
    ensures r.consumed == (if HasKey(options, HtmlKey) then Some(HtmlKey)
                           else if HasKey(options, BareKey) then Some(BareKey) else None)
    ensures r.consumed.Some? ==> Get(options, r.consumed.value) == Some(r.output)
                                 && !HasKey(r.rest, r.consumed.value)
                                 && forall k :: k != r.consumed.value ==> Get(r.rest, k) == Get(options, k)
    ensures r.consumed.None? ==> r.output == "" && r.rest == options
  {
    match Get(options, HtmlKey)
    case Some(html) => Extraction(html, Unset(options, HtmlKey), Some(HtmlKey))
    case None =>
      match Get(options, BareKey)
      case Some(html) => Extraction(html, Unset(options, BareKey), Some(BareKey))
      case None => Extraction("", options, None)
  }

  /** When both options are set, only 'html' is consumed: option 0 stays as it was. */
  lemma NamedOptionTakesPrecedence(options: PArray<string>)
    requires HasKey(options, HtmlKey) && HasKey(options, BareKey)
    ensures ExtractHtml(options).output == Get(options, HtmlKey).value
    ensures Get(ExtractHtml(options).rest, BareKey) == Get(options, BareKey)
    ensures !HasKey(ExtractHtml(options).rest, HtmlKey)
  {
  }

  /**
   * Putting the consumed option back gives an option array that agrees with
   * the original on every key: extraction loses nothing but the one option.
   */
  lemma ExtractionRoundTrip(options: PArray<string>)
    ensures var x := ExtractHtml(options);
            x.consumed.Some? ==>
              forall k :: Get(Put(x.rest, x.consumed.value, x.output), k) == Get(options, k)
    ensures var x := ExtractHtml(options);
            x.consumed.None? ==> x.rest == options
  {
  }

  /** The raw-HTML form-element type. */
  class HtmlField {
    const core: CustomField

    constructor (title: string)
      ensures fresh(core) && core.kind == HtmlKind && core.name == "html"
      ensures core.title == (if EmptyString(title) then "HTML" else title)
      ensures core.field == null
    {
      core := new CustomField(HtmlKind, "html", if EmptyString(title) then "HTML" else title);
    }

    /**
     * Moves the markup from the field's options to its output, unescaped;
     * the output is empty when neither option is set.
     */
    method FormElementHtml()
      requires core.field != null
      modifies core.field
      ensures var x := ExtractHtml(old(core.field.options));
              core.field.output == x.output && core.field.options == x.rest
      ensures core.field.name == old(core.field.name) && core.field.formElement == old(core.field.formElement)
      ensures core.field.value == old(core.field.value) && core.field.attributes == old(core.field.attributes)
    {
      var f := core.field;
      var html := "";
      if HasKey(f.options, HtmlKey) {
        html := Get(f.options, HtmlKey).value;
        f.options := Unset(f.options, HtmlKey);
      } else if HasKey(f.options, BareKey) {
        html := Get(f.options, BareKey).value;
        f.options := Unset(f.options, BareKey);
      }
      f.output := html;
    }

    /** The write-mode build: set up the field, then move its markup to its output. */
    method FormElementBuild(f: FieldObject)
      modifies core`field, f
      ensures core.field == f
      ensures var x := ExtractHtml(old(f.options));
              f.output == x.output && f.options == x.rest
    ensures f.name == old(f.name) && f.formElement == old(f.formElement)
    ensures f.value == old(f.value) && f.attributes == old(f.attributes)
    {
      core.SetupField(f);
      FormElementHtml();
    }
  }
}
