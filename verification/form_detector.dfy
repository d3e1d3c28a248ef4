/** Form extraction (engine/form-detector.js): every `<form>` becomes a
    record with its controls described; nameless hidden controls are
    skipped. */
module FormDetector {
  import opened Wrappers
  import opened Text
  import opened Seqs
  import opened Records

  /** An `input`, `select` or `textarea` as the DOM exposes it: `tagName`,
      `type`, `name`, `id`, `required`, `placeholder` ("" when absent). */
  datatype Control = Control(tagName: string, controlType: string, name: string, id: string,
                             required: bool, placeholder: string)

  /** A `<form>`: its `action` and `method` properties and its controls in
      document order. */
  datatype FormEl = FormEl(action: string, formMethod: string, controls: seq<Control>)

  /** Controls kept: all but hidden ones without a name. */
  predicate Kept(c: Control) {
    !(c.controlType == "hidden" && c.name == "")
  }

  /** The field description, with "text" for a missing type. */
  function FieldOf(c: Control): (f: FormField)
    ensures f.tag == Lower(c.tagName) && f.name == c.name && f.id == c.id
    ensures f.fieldType == (if c.controlType == "" then "text" else c.controlType)
    ensures f.required == c.required && f.placeholder == c.placeholder
  {
    FormField(Lower(c.tagName), if c.controlType == "" then "text" else c.controlType, c.name, c.id,
              c.required, c.placeholder)
  }

  /** The kept controls' descriptions, in order. */
  function FieldsOf(controls: seq<Control>): (fs: seq<FormField>)
    ensures |fs| == Count(controls, Kept)
    ensures forall f :: f in fs ==> exists c :: c in controls && Kept(c) && f == FieldOf(c)
  {
    if |controls| == 0 then []
    else
      var rest := FieldsOf(controls[1..]);
      assert forall c :: c in controls[1..] ==> c in controls;
      if Kept(controls[0]) then [FieldOf(controls[0])] + rest else rest
  }

  /** The descriptions follow the kept controls one for one, in document
      order. */
  lemma {:induction false} FieldsInOrder(controls: seq<Control>)
    ensures var fs := FieldsOf(controls);
            forall i :: 0 <= i < |fs| ==> fs[i] == FieldOf(Filter(controls, Kept)[i])
    decreases |controls|
  {
    if |controls| > 0 {
      FieldsInOrder(controls[1..]);
      var fs, rest := FieldsOf(controls), FieldsOf(controls[1..]);
      var kept, keptRest := Filter(controls, Kept), Filter(controls[1..], Kept);
      if Kept(controls[0]) {
        assert fs == [FieldOf(controls[0])] + rest;
        assert kept == [controls[0]] + keptRest by {
          assert Kept(controls[0]);
        }
        forall i | 1 <= i < |fs| ensures fs[i] == FieldOf(kept[i]) {
          assert fs[i] == rest[i - 1] && kept[i] == keptRest[i - 1];
        }
      } else {
        assert fs == rest && kept == keptRest;
      }
    }
  }

  /** Every kept control is described. */
  lemma {:induction false} FieldsComplete(controls: seq<Control>, c: Control)
    requires c in controls && Kept(c)
    ensures FieldOf(c) in FieldsOf(controls)
  {
    if controls[0] != c {
      assert c in controls[1..];
      FieldsComplete(controls[1..], c);
    }
  }

  /** The record of one form on `pageUrl`. */
  function RecordOf(form: FormEl, pageUrl: string): (r: FormRecord)
    ensures r.pageUrl == pageUrl && !r.isLoginForm
    ensures r.action == (if form.action == "" then pageUrl else form.action)
    ensures r.httpMethod == Upper(if form.formMethod == "" then "GET" else form.formMethod)
    ensures r.fields == Encoded(FieldsOf(form.controls))
  {
    FormRecord(pageUrl, if form.action == "" then pageUrl else form.action,
               Upper(if form.formMethod == "" then "GET" else form.formMethod),
               Encoded(FieldsOf(form.controls)), false)
  }

  /** `detectForms`: one record per form in document order; None (the
      DOM query throws) yields no forms. */
  function DetectForms(forms: Option<seq<FormEl>>, pageUrl: string): (r: seq<FormRecord>)
    ensures forms.None? ==> r == []
    ensures forms.Some? ==> |r| == |forms.value|
    ensures forms.Some? ==> forall i :: 0 <= i < |r| ==> r[i] == RecordOf(forms.value[i], pageUrl)
  {
    match forms
    case None => []
    case Some(fs) => seq(|fs|, i requires 0 <= i < |fs| => RecordOf(fs[i], pageUrl))
  }

  /** No recorded field is a hidden control without a name, and every
      field has a non-empty type. */
  lemma {:induction false} FieldsWellFormed(controls: seq<Control>)
    ensures forall f :: f in FieldsOf(controls) ==> f.fieldType != "" && !(f.fieldType == "hidden" && f.name == "")
  {
    forall f | f in FieldsOf(controls)
      ensures f.fieldType != "" && !(f.fieldType == "hidden" && f.name == "")
    {
      var c :| c in controls && Kept(c) && f == FieldOf(c);
    }
  }

  /** A recorded method never has a lower-case ASCII letter. */
  lemma MethodUpperCase(form: FormEl, pageUrl: string)
    ensures forall i :: 0 <= i < |RecordOf(form, pageUrl).httpMethod| ==>
              !IsAsciiLower(RecordOf(form, pageUrl).httpMethod[i])
  {
  }
}
