/** The live page scout (generator/page-scout.js): the UI snapshot taken
    of a page (`capturePage`), the click targets collected on the homepage,
    and the exploration that records the homepage, the pages reached by
    clicking, and the common auth/pricing paths. The DOM is given as element
    records; clicking and navigating are oracles. */
module PageScout {
  import opened Wrappers
  import opened Text
  import opened Seqs
  import opened Urls
  import opened Records

  /** A `button`, `input[type=submit]` or `[role=button]` element: whether
      it is rendered (`offsetParent !== null`), its text content, its
      `value` and its `aria-label` ("" when absent). */
  datatype ButtonEl = ButtonEl(visible: bool, text: string, value: string, ariaLabel: string)

  /** An `input` or `textarea`: its tag name (lower case), its `type`
      attribute when present, and the attributes the snapshot reads;
      `labelFor` is the text of the `label[for=id]`, if there is one.
      `typeAttr` is taken lower-cased, as HTML attribute selectors compare
      `type` without regard to ASCII case and `el.type` reports it in lower
      case. */
  datatype FieldEl = FieldEl(tag: string, typeAttr: Option<string>, visible: bool, placeholder: string,
                             ariaLabel: string, id: string, name: string, labelFor: Option<string>)

  /** An `a[href]`: rendered or not, its text content and `href` attribute. */
  datatype AnchorEl = AnchorEl(visible: bool, text: string, href: string)

  /** A `<select>` with the text of each option. */
  datatype SelectEl = SelectEl(visible: bool, ariaLabel: string, id: string, name: string,
                               labelFor: Option<string>, options: seq<string>)

  /** The parts of a page the scout reads, in document order. `headings`
      are the texts of h1-h4, `paragraphs` those of the description-like
      blocks. */
  datatype Dom = Dom(title: string, buttons: seq<ButtonEl>, fields: seq<FieldEl>, anchors: seq<AnchorEl>,
                     headings: seq<string>, selects: seq<SelectEl>, paragraphs: seq<string>)

  /** `a || b` on strings. */
  function OrElse(a: string, b: string): (r: string)
    ensures r == "" <==> a == "" && b == ""
    ensures a != "" ==> r == a
  {
    if a != "" then a else b
  }

  function Ident(s: string): string { s }

  /** `[...new Set(xs)].filter(Boolean)`: the first occurrence of every
      non-empty string, in order. */
  predicate NonEmpty(s: string) { s != "" }

  function Unique(xs: seq<string>): (r: seq<string>)
    ensures Distinct(r)
    ensures forall x :: x in r ==> x != "" && x in xs
    ensures forall x :: x in xs && x != "" ==> x in r
  {
    UniqueMembers(xs);
    DedupFrom(xs, Ident, {""})
  }

  /** `Unique` is the source's order of operations: deduplicate, then
      drop the empty strings. */
  lemma UniqueIsDedupThenFilter(xs: seq<string>)
    ensures Filter(DedupBy(xs, Ident), NonEmpty) == Unique(xs)
  {
    UniqueIsDedup(xs, {});
    assert {} + {""} == {""};
  }

  lemma UniqueMembers(xs: seq<string>)
    ensures var r := DedupFrom(xs, Ident, {""});
            Distinct(r) && (forall x :: x in r ==> x != "" && x in xs)
            && forall x :: x in xs && x != "" ==> x in r
  {
    var r := DedupFrom(xs, Ident, {""});
    SubsequenceMembers(r, xs);
    forall x | x in r ensures x != "" {
      var i :| 0 <= i < |r| && r[i] == x;
      assert Ident(r[i]) !in {""};
    }
    forall x | x in xs && x != "" ensures x in r {
      var i :| 0 <= i < |xs| && xs[i] == x;
      assert Ident(xs[i]) in KeySet(xs, Ident);
      assert x in KeySet(r, Ident);
      var j :| 0 <= j < |r| && Ident(r[j]) == x;
      assert r[j] == x;
    }
    forall i, j | 0 <= i < j < |r| ensures r[i] != r[j] {
      assert Ident(r[i]) != Ident(r[j]);
    }
  }

  /** Deduplicating and then dropping empty strings is deduplicating with
      the empty string marked as seen. */
  lemma {:induction false} UniqueIsDedup(xs: seq<string>, seen: set<string>)
    ensures Filter(DedupFrom(xs, Ident, seen), NonEmpty) == DedupFrom(xs, Ident, seen + {""})
    decreases |xs|
  {
    if |xs| > 0 {
      var x := xs[0];
      if x in seen {
        UniqueIsDedup(xs[1..], seen);
      } else {
        UniqueIsDedup(xs[1..], seen + {x});
        var rest := DedupFrom(xs[1..], Ident, seen + {x});
        assert DedupFrom(xs, Ident, seen) == [x] + rest;
        assert ([x] + rest)[0] == x && ([x] + rest)[1..] == rest;
        if x == "" {
          assert seen + {x} + {""} == seen + {""};
        } else {
          assert seen + {x} + {""} == seen + {""} + {x};
        }
      }
    }
  }

  /** `unique(xs).slice(0, cap)`. */
  function UniqueCapped(xs: seq<string>, cap: nat): (r: seq<string>)
    ensures |r| <= cap && Distinct(r)
    ensures forall x :: x in r ==> x != "" && x in xs
    ensures |r| < cap ==> forall x :: x in xs && x != "" ==> x in r
  {
    var u := Unique(xs);
    var r := Prefix(u, cap);
    assert forall x :: x in r ==> x in u;
    r
  }

  /** `txt(el)`: trimmed text content, at most 80 characters. */
  function Txt(text: string): (r: string)
    ensures |r| <= 80 && r == Take(Trim(text), 80)
  {
    Take(Trim(text), 80)
  }

  /** A button's label: its text, else its value, else its aria-label, at
      most 60 characters. */
  function ButtonLabel(b: ButtonEl): (r: string)
    ensures |r| <= 60
    ensures Txt(b.text) != "" ==> r == Take(Txt(b.text), 60)
    ensures Txt(b.text) == "" && b.value != "" ==> r == Take(b.value, 60)
    ensures Txt(b.text) == "" && b.value == "" ==> r == Take(b.ariaLabel, 60)
  {
    Take(OrElse(OrElse(Txt(b.text), b.value), b.ariaLabel), 60)
  }

  function VisibleButtonLabels(bs: seq<ButtonEl>): seq<string> {
    if |bs| == 0 then []
    else (if bs[0].visible then [ButtonLabel(bs[0])] else []) + VisibleButtonLabels(bs[1..])
  }

  lemma {:induction false} VisibleButtonLabelsIff(bs: seq<ButtonEl>, s: string)
    ensures s in VisibleButtonLabels(bs) <==> exists b :: b in bs && b.visible && ButtonLabel(b) == s
  {
    if |bs| > 0 {
      VisibleButtonLabelsIff(bs[1..], s);
      assert forall b :: b in bs <==> b == bs[0] || b in bs[1..];
    }
  }

  /** The snapshot's buttons: distinct non-empty labels of rendered
      buttons, first occurrence first, at most 25. */
  function Buttons(dom: Dom): (r: seq<string>)
    ensures |r| <= 25 && Distinct(r)
    ensures forall s :: s in r ==> s != "" && |s| <= 60 && exists b :: b in dom.buttons && b.visible && ButtonLabel(b) == s
    ensures |r| < 25 ==> forall b :: b in dom.buttons && b.visible && ButtonLabel(b) != "" ==> ButtonLabel(b) in r
  {
    var labels := VisibleButtonLabels(dom.buttons);
    forall s | s in labels ensures exists b :: b in dom.buttons && b.visible && ButtonLabel(b) == s {
      VisibleButtonLabelsIff(dom.buttons, s);
    }
    forall b | b in dom.buttons && b.visible ensures ButtonLabel(b) in labels {
      VisibleButtonLabelsIff(dom.buttons, ButtonLabel(b));
    }
    UniqueCapped(labels, 25)
  }

  const TextLikeTypes: set<string> := {"text", "email", "password", "tel", "number", "search", "url"}

  /** A rendered text-like input or textarea: the elements the snapshot's
      input list selects. */
  predicate ShownField(f: FieldEl) {
    f.visible && (f.tag == "textarea" || (f.tag == "input" && (f.typeAttr.None? || f.typeAttr.value in TextLikeTypes)))
  }

  /** The `for`-label text counts only for an element with an id. */
  function LabelForText(id: string, labelFor: Option<string>): string {
    if id != "" && labelFor.Some? then Trim(labelFor.value) else ""
  }

  /** An input's label: aria-label, else placeholder, else its
      `label[for]` text, else its name, at most 60 characters. */
  function FieldLabel(f: FieldEl): (r: string)
    ensures |r| <= 60
    ensures f.ariaLabel != "" ==> r == Take(f.ariaLabel, 60)
    ensures f.ariaLabel == "" && f.placeholder != "" ==> r == Take(f.placeholder, 60)
    ensures f.ariaLabel == "" && f.placeholder == "" && LabelForText(f.id, f.labelFor) != "" ==>
              r == Take(LabelForText(f.id, f.labelFor), 60)
    ensures f.ariaLabel == "" && f.placeholder == "" && LabelForText(f.id, f.labelFor) == "" ==> r == Take(f.name, 60)
  {
    Take(OrElse(OrElse(OrElse(f.ariaLabel, f.placeholder), LabelForText(f.id, f.labelFor)), f.name), 60)
  }

  /** The element's `type` property: "textarea" for a textarea, the type
      attribute of a text-like input, "text" when it has none. */
  function FieldType(f: FieldEl): string {
    if f.tag == "textarea" then "textarea" else f.typeAttr.GetOr("text")
  }

  function Describe(f: FieldEl): (d: InputDescriptor)
    ensures d.labelText == FieldLabel(f) && d.name == f.name && d.placeholder == f.placeholder
    ensures d.inputType == FieldType(f)
  {
    InputDescriptor(FieldType(f), f.placeholder, FieldLabel(f), f.name)
  }

  /** The snapshot's inputs: every rendered text-like field described, in
      order, not deduplicated, at most 25. */
  function Inputs(dom: Dom): (r: seq<InputDescriptor>)
    ensures |r| == if Count(dom.fields, ShownField) < 25 then Count(dom.fields, ShownField) else 25
    ensures forall i :: 0 <= i < |r| ==> r[i] == Describe(Filter(dom.fields, ShownField)[i])
  {
    var shown := Filter(dom.fields, ShownField);
    Prefix(seq(|shown|, i requires 0 <= i < |shown| => Describe(shown[i])), 25)
  }

  function VisibleAnchorTexts(anchors: seq<AnchorEl>): seq<string> {
    if |anchors| == 0 then []
    else (if anchors[0].visible then [Txt(anchors[0].text)] else []) + VisibleAnchorTexts(anchors[1..])
  }

  lemma {:induction false} VisibleAnchorTextsIff(anchors: seq<AnchorEl>, s: string)
    ensures s in VisibleAnchorTexts(anchors) <==> exists a :: a in anchors && a.visible && Txt(a.text) == s
  {
    if |anchors| > 0 {
      VisibleAnchorTextsIff(anchors[1..], s);
      assert forall a :: a in anchors <==> a == anchors[0] || a in anchors[1..];
    }
  }

  predicate LinkTextLength(t: string) { 1 < |t| < 60 }

  /** The snapshot's links: distinct texts of rendered anchors whose length
      is strictly between 1 and 60, at most 25. */
  function Links(dom: Dom): (r: seq<string>)
    ensures |r| <= 25 && Distinct(r)
    ensures forall t :: t in r ==> 1 < |t| < 60 && exists a :: a in dom.anchors && a.visible && Txt(a.text) == t
    ensures |r| < 25 ==> forall a :: a in dom.anchors && a.visible && 1 < |Txt(a.text)| < 60 ==> Txt(a.text) in r
  {
    var texts := VisibleAnchorTexts(dom.anchors);
    var kept := Filter(texts, LinkTextLength);
    forall t | t in kept ensures exists a :: a in dom.anchors && a.visible && Txt(a.text) == t {
      VisibleAnchorTextsIff(dom.anchors, t);
    }
    forall a | a in dom.anchors && a.visible && 1 < |Txt(a.text)| < 60 ensures Txt(a.text) in kept {
      VisibleAnchorTextsIff(dom.anchors, Txt(a.text));
    }
    UniqueCapped(kept, 25)
  }

  function Texts(xs: seq<string>): (r: seq<string>)
    ensures |r| == |xs| && forall i :: 0 <= i < |xs| ==> r[i] == Txt(xs[i])
  {
    seq(|xs|, i requires 0 <= i < |xs| => Txt(xs[i]))
  }

  predicate HeadingLength(t: string) { |t| > 1 }

  /** The snapshot's headings (rendered or not): distinct texts longer than
      one character, at most 15. */
  function Headings(dom: Dom): (r: seq<string>)
    ensures |r| <= 15 && Distinct(r)
    ensures forall t :: t in r ==> 1 < |t| <= 80 && t in Texts(dom.headings)
    ensures |r| < 15 ==> forall t :: t in Texts(dom.headings) && |t| > 1 ==> t in r
  {
    UniqueCapped(Filter(Texts(dom.headings), HeadingLength), 15)
  }

  predicate SnippetLength(t: string) { 10 < |t| < 200 }

  /** The snapshot's text snippets: distinct texts of 11 to 199
      characters, at most 5. */
  function Snippets(dom: Dom): (r: seq<string>)
    ensures |r| <= 5 && Distinct(r)
    ensures forall t :: t in r ==> 10 < |t| < 200 && t in Texts(dom.paragraphs)
    ensures |r| < 5 ==> forall t :: t in Texts(dom.paragraphs) && 10 < |t| < 200 ==> t in r
  {
    UniqueCapped(Filter(Texts(dom.paragraphs), SnippetLength), 5)
  }

  /** A select: aria-label, else its `label[for]` text, else its name, at
      most 60 characters; its first ten options, trimmed. */
  function DescribeSelect(s: SelectEl): (d: SelectDescriptor)
    ensures |d.labelText| <= 60 && |d.options| <= 10
    ensures |d.options| == if |s.options| < 10 then |s.options| else 10
    ensures forall i :: 0 <= i < |d.options| ==> d.options[i] == Trim(s.options[i])
    ensures s.ariaLabel != "" ==> d.labelText == Take(s.ariaLabel, 60)
    ensures s.ariaLabel == "" && LabelForText(s.id, s.labelFor) != "" ==>
              d.labelText == Take(LabelForText(s.id, s.labelFor), 60)
    ensures s.ariaLabel == "" && LabelForText(s.id, s.labelFor) == "" ==> d.labelText == Take(s.name, 60)
  {
    var opts := Prefix(s.options, 10);
    SelectDescriptor(Take(OrElse(OrElse(s.ariaLabel, LabelForText(s.id, s.labelFor)), s.name), 60),
                     seq(|opts|, i requires 0 <= i < |opts| => Trim(opts[i])))
  }

  predicate ShownSelect(s: SelectEl) { s.visible }

  /** The snapshot's selects: the first ten rendered ones. */
  function Selects(dom: Dom): (r: seq<SelectDescriptor>)
    ensures |r| <= 10
    ensures |r| == if Count(dom.selects, ShownSelect) < 10 then Count(dom.selects, ShownSelect) else 10
    ensures forall i :: 0 <= i < |r| ==> r[i] == DescribeSelect(Filter(dom.selects, ShownSelect)[i])
  {
    var shown := Filter(dom.selects, ShownSelect);
    Prefix(seq(|shown|, i requires 0 <= i < |shown| => DescribeSelect(shown[i])), 10)
  }

  /** `capturePage`'s UI elements. */
  function Snapshot(dom: Dom): UiSnapshot {
    UiSnapshot(Buttons(dom), Inputs(dom), Links(dom), Headings(dom), Selects(dom), Snippets(dom))
  }

  /** Every list of a snapshot respects its cap. */
  lemma SnapshotBounded(dom: Dom)
    ensures var ui := Snapshot(dom);
            |ui.buttons| <= 25 && |ui.inputs| <= 25 && |ui.links| <= 25 && |ui.headings| <= 15
            && |ui.selects| <= 10 && |ui.textSnippets| <= 5
            && (forall i :: 0 <= i < |ui.selects| ==> |ui.selects[i].options| <= 10)
  {
  }

  // ---------------------------------------------------------------- targets

  /** A candidate for exploration: its text (at most 60 characters), and
      for a link its `href`. */
  datatype ClickTarget = ClickTarget(text: string, isLink: bool, href: string)

  function TargetText(t: ClickTarget): string { t.text }

  /** An anchor the scout may click: its `href` is neither "" nor "#". */
  predicate HasUsableHref(a: AnchorEl) {
    a.href != "#" && a.href != ""
  }

  /** The candidate an anchor gives: its trimmed text, and its `href`. */
  function LinkCandidate(a: AnchorEl): ClickTarget {
    ClickTarget(TargetLabel(a.text), true, a.href)
  }

  /** The anchors with a usable `href`, each as a candidate, in document
      order. */
  function LinkCandidates(anchors: seq<AnchorEl>): (r: seq<ClickTarget>)
    ensures forall i :: 0 <= i < |r| ==> r[i].isLink && r[i].href != "" && r[i].href != "#" && |r[i].text| <= 60
  {
    if |anchors| == 0 then []
    else
      var a := anchors[0];
      (if HasUsableHref(a) then [LinkCandidate(a)] else []) + LinkCandidates(anchors[1..])
  }

  /** The i-th link candidate is the i-th anchor with a usable `href`. */
  lemma {:induction false} LinkCandidatesInOrder(anchors: seq<AnchorEl>)
    ensures var r := LinkCandidates(anchors);
            |r| == |Filter(anchors, HasUsableHref)|
            && forall i :: 0 <= i < |r| ==> r[i] == LinkCandidate(Filter(anchors, HasUsableHref)[i])
    decreases |anchors|
  {
    if |anchors| > 0 {
      LinkCandidatesInOrder(anchors[1..]);
      var r, rest := LinkCandidates(anchors), LinkCandidates(anchors[1..]);
      var kept, keptRest := Filter(anchors, HasUsableHref), Filter(anchors[1..], HasUsableHref);
      if HasUsableHref(anchors[0]) {
        assert r == [LinkCandidate(anchors[0])] + rest;
        assert kept == [anchors[0]] + keptRest;
        assert r[1..] == rest && kept[1..] == keptRest;
        forall i | 1 <= i < |r| ensures r[i] == LinkCandidate(kept[i]) {
          assert r[i] == r[1..][i - 1] && kept[i] == kept[1..][i - 1];
        }
      } else {
        assert r == rest && kept == keptRest;
      }
    }
  }

  /** A candidate's text: trimmed and cut to 60 characters. */
  function TargetLabel(text: string): (r: string)
    ensures |r| <= 60
  {
    Take(Trim(text), 60)
  }

  /** The candidate a button gives: `textContent || value`, trimmed, and
      no `href`. */
  function ButtonCandidate(b: ButtonEl): ClickTarget {
    ClickTarget(TargetLabel(OrElse(b.text, b.value)), false, "")
  }

  function ButtonCandidates(buttons: seq<ButtonEl>): (r: seq<ClickTarget>)
    ensures |r| == |buttons|
    ensures forall i :: 0 <= i < |r| ==> r[i] == ButtonCandidate(buttons[i])
    ensures forall i :: 0 <= i < |r| ==> !r[i].isLink && r[i].href == "" && |r[i].text| <= 60
  {
    seq(|buttons|, i requires 0 <= i < |buttons| => ButtonCandidate(buttons[i]))
  }

  /** Every link precedes every button. */
  predicate LinksFirst(ts: seq<ClickTarget>) {
    forall i, j :: 0 <= i < j < |ts| && ts[j].isLink ==> ts[i].isLink
  }

  lemma {:induction false} SubsequenceLinksFirst(xs: seq<ClickTarget>, ys: seq<ClickTarget>)
    requires IsSubsequence(xs, ys) && LinksFirst(ys)
    ensures LinksFirst(xs)
    decreases |ys|
  {
    if |xs| > 0 && |ys| > 0 {
      assert LinksFirst(ys[1..]) by {
        forall i, j | 0 <= i < j < |ys[1..]| && ys[1..][j].isLink ensures ys[1..][i].isLink {
          assert ys[1..][i] == ys[i + 1] && ys[1..][j] == ys[j + 1];
        }
      }
      if xs[0] == ys[0] {
        SubsequenceLinksFirst(xs[1..], ys[1..]);
        SubsequenceMembers(xs[1..], ys[1..]);
        if !xs[0].isLink {
          forall j | 0 < j < |xs| ensures !xs[j].isLink {
            assert xs[j] == xs[1..][j - 1];
            assert xs[j] in ys[1..];
            var k :| 0 <= k < |ys[1..]| && ys[1..][k] == xs[j];
            assert ys[k + 1] == xs[j];
          }
        }
      } else {
        SubsequenceLinksFirst(xs, ys[1..]);
      }
    }
  }

  /** A well-formed candidate list: links first, texts of at most 60
      characters, links with a usable `href`. */
  predicate WellFormedTargets(ts: seq<ClickTarget>) {
    LinksFirst(ts)
    && forall i :: 0 <= i < |ts| ==> |ts[i].text| <= 60 && (ts[i].isLink ==> ts[i].href != "" && ts[i].href != "#")
  }

  /** The candidates of a page: its link candidates, then one candidate
      per button. */
  function Candidates(dom: Dom): (r: seq<ClickTarget>)
    ensures r == LinkCandidates(dom.anchors) + ButtonCandidates(dom.buttons)
    ensures WellFormedTargets(r)
  {
    var links := LinkCandidates(dom.anchors);
    var r := links + ButtonCandidates(dom.buttons);
    forall i, j | 0 <= i < j < |r| && r[j].isLink ensures r[i].isLink {
      assert j < |links|;
      assert r[i] == links[i];
    }
    r
  }

  /** Deduplicating by text, with "" marked as seen, keeps a list
      well-formed and leaves distinct non-empty texts. */
  lemma DedupTargets(ts: seq<ClickTarget>)
    requires WellFormedTargets(ts)
    ensures var r := DedupFrom(ts, TargetText, {""});
            WellFormedTargets(r)
            && (forall i, j :: 0 <= i < j < |r| ==> r[i].text != r[j].text)
            && forall i :: 0 <= i < |r| ==> r[i].text != ""
  {
    var r := DedupFrom(ts, TargetText, {""});
    SubsequenceMembers(r, ts);
    SubsequenceLinksFirst(r, ts);
    forall i | 0 <= i < |r| ensures r[i].text != "" && |r[i].text| <= 60
      && (r[i].isLink ==> r[i].href != "" && r[i].href != "#")
    {
      assert TargetText(r[i]) !in {""};
      assert r[i] in ts;
    }
    forall i, j | 0 <= i < j < |r| ensures r[i].text != r[j].text {
      assert TargetText(r[i]) != TargetText(r[j]);
    }
  }

  /** The homepage's click targets: the candidates in order, keeping the
      first one of every non-empty text, so that the first text wins
      across links and buttons. */
  function ClickTargets(dom: Dom): (r: seq<ClickTarget>)
    ensures IsSubsequence(r, Candidates(dom))
    ensures KeySet(r, TargetText) == KeySet(Candidates(dom), TargetText) - {""}
    ensures forall i :: 0 <= i < |r| ==> FirstWithKey(Candidates(dom), TargetText, r[i].text) == Some(r[i])
    ensures forall i, j :: 0 <= i < j < |r| ==> r[i].text != r[j].text
    ensures forall i :: 0 <= i < |r| ==> r[i].text != "" && |r[i].text| <= 60
    ensures forall i :: 0 <= i < |r| && r[i].isLink ==> r[i].href != "" && r[i].href != "#"
    ensures LinksFirst(r)
  {
    DedupTargets(Candidates(dom));
    DedupFrom(Candidates(dom), TargetText, {""})
  }

  /** The link candidates are exactly the candidates of the usable
      anchors. */
  lemma {:induction false} LinkCandidatesMembers(anchors: seq<AnchorEl>)
    ensures forall a :: a in anchors && HasUsableHref(a) ==> LinkCandidate(a) in LinkCandidates(anchors)
    ensures forall c :: c in LinkCandidates(anchors) ==>
              exists a :: a in anchors && HasUsableHref(a) && c == LinkCandidate(a)
    decreases |anchors|
  {
    if |anchors| > 0 {
      LinkCandidatesMembers(anchors[1..]);
      var rest := LinkCandidates(anchors[1..]);
      var head := if HasUsableHref(anchors[0]) then [LinkCandidate(anchors[0])] else [];
      assert LinkCandidates(anchors) == head + rest;
      forall a | a in anchors && HasUsableHref(a) ensures LinkCandidate(a) in head + rest {
        if a != anchors[0] {
          assert a in anchors[1..];
        }
      }
      forall c | c in head + rest ensures exists a :: a in anchors && HasUsableHref(a) && c == LinkCandidate(a) {
        if c in rest {
          var a :| a in anchors[1..] && HasUsableHref(a) && c == LinkCandidate(a);
          assert a in anchors;
        } else {
          assert anchors[0] in anchors;
        }
      }
    }
  }

  /** A candidate with a non-empty text keeps its text in a list deduplicated
      by text with "" marked as seen. */
  lemma TextKept(ts: seq<ClickTarget>, r: seq<ClickTarget>, c: ClickTarget)
    requires KeySet(r, TargetText) == KeySet(ts, TargetText) - {""}
    requires c in ts && c.text != ""
    ensures exists i :: 0 <= i < |r| && r[i].text == c.text
  {
    var k :| 0 <= k < |ts| && ts[k] == c;
    assert TargetText(ts[k]) in KeySet(ts, TargetText);
    assert c.text in KeySet(r, TargetText);
    var i :| 0 <= i < |r| && TargetText(r[i]) == c.text;
  }

  /** Every usable anchor and every button with a non-empty text has its
      text among the click targets. */
  lemma ClickTargetsComplete(dom: Dom)
    ensures var r := ClickTargets(dom);
            (forall a :: a in dom.anchors && HasUsableHref(a) && LinkCandidate(a).text != "" ==>
               exists i :: 0 <= i < |r| && r[i].text == LinkCandidate(a).text)
            && (forall b :: b in dom.buttons && ButtonCandidate(b).text != "" ==>
                  exists i :: 0 <= i < |r| && r[i].text == ButtonCandidate(b).text)
  {
    forall a | a in dom.anchors && HasUsableHref(a) && LinkCandidate(a).text != ""
      ensures exists i :: 0 <= i < |ClickTargets(dom)| && ClickTargets(dom)[i].text == LinkCandidate(a).text
    {
      LinkTextKept(dom, a);
    }
    forall b | b in dom.buttons && ButtonCandidate(b).text != ""
      ensures exists i :: 0 <= i < |ClickTargets(dom)| && ClickTargets(dom)[i].text == ButtonCandidate(b).text
    {
      ButtonTextKept(dom, b);
    }
  }

  lemma LinkTextKept(dom: Dom, a: AnchorEl)
    requires a in dom.anchors && HasUsableHref(a) && LinkCandidate(a).text != ""
    ensures exists i :: 0 <= i < |ClickTargets(dom)| && ClickTargets(dom)[i].text == LinkCandidate(a).text
  {
    LinkCandidatesMembers(dom.anchors);
    assert LinkCandidate(a) in Candidates(dom);
    TextKept(Candidates(dom), ClickTargets(dom), LinkCandidate(a));
  }

  lemma ButtonTextKept(dom: Dom, b: ButtonEl)
    requires b in dom.buttons && ButtonCandidate(b).text != ""
    ensures exists i :: 0 <= i < |ClickTargets(dom)| && ClickTargets(dom)[i].text == ButtonCandidate(b).text
  {
    var buttons := ButtonCandidates(dom.buttons);
    var k :| 0 <= k < |dom.buttons| && dom.buttons[k] == b;
    assert buttons[k] == ButtonCandidate(b);
    assert ButtonCandidate(b) in Candidates(dom);
    TextKept(Candidates(dom), ClickTargets(dom), ButtonCandidate(b));
  }

  /** Each link target is a usable anchor's candidate and each button
      target a button's. */
  lemma ClickTargetsFromPage(dom: Dom)
    ensures var r := ClickTargets(dom);
            (forall i :: 0 <= i < |r| && r[i].isLink ==>
               exists a :: a in dom.anchors && HasUsableHref(a) && r[i] == LinkCandidate(a))
            && (forall i :: 0 <= i < |r| && !r[i].isLink ==>
                  exists b :: b in dom.buttons && r[i] == ButtonCandidate(b))
  {
    var r := ClickTargets(dom);
    SubsequenceMembers(r, Candidates(dom));
    forall i | 0 <= i < |r|
      ensures r[i].isLink ==> exists a :: a in dom.anchors && HasUsableHref(a) && r[i] == LinkCandidate(a)
      ensures !r[i].isLink ==> exists b :: b in dom.buttons && r[i] == ButtonCandidate(b)
    {
      assert r[i] in r;
      CandidateSource(dom, r[i]);
    }
  }

  /** A candidate is a usable anchor's or a button's. */
  lemma CandidateSource(dom: Dom, c: ClickTarget)
    requires c in Candidates(dom)
    ensures c.isLink ==> exists a :: a in dom.anchors && HasUsableHref(a) && c == LinkCandidate(a)
    ensures !c.isLink ==> exists b :: b in dom.buttons && c == ButtonCandidate(b)
  {
    var links, buttons := LinkCandidates(dom.anchors), ButtonCandidates(dom.buttons);
    LinkCandidatesMembers(dom.anchors);
    assert c in links + buttons;
    if c !in links {
      var k :| 0 <= k < |buttons| && buttons[k] == c;
      assert dom.buttons[k] in dom.buttons;
    }
  }

  /** `slug`: lower-cased, every run of characters other than [a-z0-9]
      replaced by one '-', at most 30 characters. */
  function Slug(text: string): (r: string)
    ensures |r| <= 30
    ensures forall i :: 0 <= i < |r| ==> IsSlugChar(r[i]) || r[i] == '-'
    ensures forall i :: 0 <= i && i + 1 < |r| ==> !(r[i] == '-' && r[i + 1] == '-')
    ensures StartsWith(CollapseRuns(Lower(text), false), r)
    ensures |r| == if |CollapseRuns(Lower(text), false)| < 30 then |CollapseRuns(Lower(text), false)| else 30
    ensures |CollapseRuns(Lower(text), false)| <= 30 ==> Filter(r, IsSlugChar) == Filter(Lower(text), IsSlugChar)
  {
    CollapseRunsKeepsSlugChars(Lower(text), false);
    Take(CollapseRuns(Lower(text), false), 30)
  }

  predicate IsSlugChar(c: char) { IsAsciiLower(c) || IsDigit(c) }

  /** Replaces each maximal run of non-slug characters by '-'; `inRun`
      says the previous character already started a run. */
  function CollapseRuns(s: string, inRun: bool): (r: string)
    ensures forall i :: 0 <= i < |r| ==> IsSlugChar(r[i]) || r[i] == '-'
    ensures forall i :: 0 <= i && i + 1 < |r| ==> !(r[i] == '-' && r[i + 1] == '-')
    ensures |r| > 0 && r[0] == '-' ==> !inRun
    ensures |r| <= |s|
  {
    if |s| == 0 then ""
    else if IsSlugChar(s[0]) then
      var rest := CollapseRuns(s[1..], false);
      assert ([s[0]] + rest)[0] == s[0] && ([s[0]] + rest)[1..] == rest;
      [s[0]] + rest
    else if inRun then CollapseRuns(s[1..], true)
    else
      var rest := CollapseRuns(s[1..], true);
      assert ("-" + rest)[0] == '-' && ("-" + rest)[1..] == rest;
      "-" + rest
  }

  /** Collapsing keeps exactly the letters and digits, in order. */
  lemma {:induction false} CollapseRunsKeepsSlugChars(s: string, inRun: bool)
    ensures Filter(CollapseRuns(s, inRun), IsSlugChar) == Filter(s, IsSlugChar)
    decreases |s|
  {
    if |s| > 0 {
      var r := CollapseRuns(s, inRun);
      if IsSlugChar(s[0]) {
        CollapseRunsKeepsSlugChars(s[1..], false);
        assert r[0] == s[0] && r[1..] == CollapseRuns(s[1..], false);
      } else if inRun {
        CollapseRunsKeepsSlugChars(s[1..], true);
      } else {
        CollapseRunsKeepsSlugChars(s[1..], true);
        assert r[0] == '-' && r[1..] == CollapseRuns(s[1..], true);
      }
    }
  }

  /** The length of the run `s` starts with: characters that are slug
      characters exactly when `slug` is. */
  function RunLength(s: string, slug: bool): (n: nat)
    ensures n <= |s|
    ensures forall i :: 0 <= i < n ==> IsSlugChar(s[i]) == slug
    ensures n < |s| ==> IsSlugChar(s[n]) != slug
    decreases |s|
  {
    if |s| == 0 || IsSlugChar(s[0]) != slug then 0
    else 1 + RunLength(s[1..], slug)
  }

  /** `s` cut into its maximal runs of slug and of other characters. */
  function Runs(s: string): (runs: seq<string>)
    decreases |s|
  {
    if |s| == 0 then []
    else
      var n := RunLength(s, IsSlugChar(s[0]));
      [s[..n]] + Runs(s[n..])
  }

  /** What `replace(/[^a-z0-9]+/g, '-')` puts in place of one run. */
  function RunText(run: string): string {
    if |run| > 0 && IsSlugChar(run[0]) then run else "-"
  }

  function ConcatRunTexts(runs: seq<string>): string
    decreases |runs|
  {
    if |runs| == 0 then "" else RunText(runs[0]) + ConcatRunTexts(runs[1..])
  }

  /** The global replacement read as the regular expression defines it:
      every maximal run of characters outside [a-z0-9] becomes one '-',
      and the runs of slug characters stay. */
  function ReplaceRuns(s: string): string {
    ConcatRunTexts(Runs(s))
  }

  /** A leading run of slug characters is copied whatever the flag. */
  lemma {:induction false} CollapseSlugRun(t: string, u: string, inRun: bool)
    requires |t| > 0 && forall i :: 0 <= i < |t| ==> IsSlugChar(t[i])
    ensures CollapseRuns(t + u, inRun) == t + CollapseRuns(u, false)
    decreases |t|
  {
    var rest := CollapseRuns(u, false);
    calc {
      CollapseRuns(t + u, inRun);
      { assert (t + u)[0] == t[0] && (t + u)[1..] == t[1..] + u; }
      [t[0]] + CollapseRuns(t[1..] + u, false);
      { if |t| == 1 { assert t[1..] + u == u; } else { CollapseSlugRun(t[1..], u, false); } }
      [t[0]] + (t[1..] + rest);
      { ConcatAssoc([t[0]], t[1..], rest); }
      ([t[0]] + t[1..]) + rest;
      { assert [t[0]] + t[1..] == t; }
      t + rest;
    }
  }

  /** A leading run of other characters gives one '-', and none inside a
      run already started. */
  lemma {:induction false} CollapseGapRun(t: string, u: string)
    requires |t| > 0 && forall i :: 0 <= i < |t| ==> !IsSlugChar(t[i])
    ensures CollapseRuns(t + u, true) == CollapseRuns(u, true)
    ensures CollapseRuns(t + u, false) == "-" + CollapseRuns(u, true)
    decreases |t|
  {
    assert (t + u)[0] == t[0] && (t + u)[1..] == t[1..] + u;
    if |t| == 1 {
      assert t[1..] + u == u;
    } else {
      CollapseGapRun(t[1..], u);
    }
  }

  /** `CollapseRuns` replaces runs exactly as the global regular expression
      does. */
  lemma {:induction false} CollapseRunsIsRunReplacement(s: string)
    ensures CollapseRuns(s, false) == ReplaceRuns(s)
    decreases |s|
  {
    if |s| > 0 {
      var n := RunLength(s, IsSlugChar(s[0]));
      var t, u := s[..n], s[n..];
      assert s == t + u;
      assert Runs(s) == [t] + Runs(u);
      assert ReplaceRuns(s) == RunText(t) + ReplaceRuns(u) by {
        assert ([t] + Runs(u))[0] == t && ([t] + Runs(u))[1..] == Runs(u);
      }
      CollapseRunsIsRunReplacement(u);
      if IsSlugChar(s[0]) {
        CollapseSlugRun(t, u, false);
      } else {
        CollapseGapRun(t, u);
        assert CollapseRuns(u, true) == CollapseRuns(u, false);
      }
    }
  }

  /** The slug is the regular-expression replacement of the lower-cased
      text, cut to 30 characters. */
  lemma SlugIsRunReplacement(text: string)
    ensures Slug(text) == Prefix(ReplaceRuns(Lower(text)), 30)
  {
    CollapseRunsIsRunReplacement(Lower(text));
  }

  // ----------------------------------------------------------- exploration

  /** A scouted page; `screenshot` is the stored image path, None when
      taking it failed. */
  datatype ScoutedPage = ScoutedPage(url: string, title: string, statusCode: int, ui: UiSnapshot,
                                     screenshot: Option<string>)

  /** What clicking a target led to: nothing usable (not visible, the click
      or the navigation back threw), or a page at `url`. */
  datatype ClickOutcome = NotClicked | Landed(url: string, dom: Dom)

  /** What navigating to a common path gave: nothing (no response or an
      error), or a response status and the page it ended on. */
  datatype PathOutcome = NoResponse | Answered(status: int, url: string, dom: Dom)

  /** The scout's state: pages so far and the URLs visited. */
  datatype Scout = Scout(pages: seq<ScoutedPage>, visited: set<string>)

  /** `String(index).padStart(2, '0')`. */
  function Pad2(n: nat): (r: string)
    ensures |r| >= 2
  {
    var s := NatToString(n);
    if |s| >= 2 then s else if |s| == 1 then "0" + s else "00"
  }

  /** The screenshot path of the `index`-th screenshot, labelled. */
  function ShotPath(index: nat, shotLabel: string): string {
    "/screenshots/latest/" + Pad2(index) + "-" + shotLabel + ".png"
  }

  /** The page recorded at position `index`; the screenshot index is the
      page's position. */
  function PageOf(index: nat, url: string, title: string, ui: UiSnapshot, shotLabel: string,
                  shotFails: string -> bool): ScoutedPage {
    var path := ShotPath(index, shotLabel);
    ScoutedPage(url, title, 200, ui, if shotFails(path) then None else Some(path))
  }

  /** Appends the page at `url` and marks it visited. */
  function Record(s: Scout, url: string, title: string, ui: UiSnapshot, shotLabel: string,
                  shotFails: string -> bool): Scout {
    Scout(s.pages + [PageOf(|s.pages|, url, title, ui, shotLabel, shotFails)], s.visited + {url})
  }

  /** The URLs of the pages. */
  function PageUrls(pages: seq<ScoutedPage>): set<string> {
    set i | 0 <= i < |pages| :: pages[i].url
  }

  /** The visited set is exactly the recorded URLs, and those are
      distinct. */
  predicate Consistent(s: Scout) {
    s.visited == PageUrls(s.pages)
    && forall i, j :: 0 <= i < j < |s.pages| ==> s.pages[i].url != s.pages[j].url
  }

  /** Recording an unvisited URL keeps the state consistent. */
  lemma AppendConsistent(s: Scout, page: ScoutedPage)
    requires Consistent(s) && page.url !in s.visited
    ensures Consistent(Scout(s.pages + [page], s.visited + {page.url}))
  {
    var ps := s.pages + [page];
    assert PageUrls(ps) == PageUrls(s.pages) + {page.url} by {
      forall u | u in PageUrls(ps) ensures u in PageUrls(s.pages) + {page.url} {
        var i :| 0 <= i < |ps| && ps[i].url == u;
        if i < |s.pages| {
          assert ps[i] == s.pages[i];
        }
      }
      forall u | u in PageUrls(s.pages) ensures u in PageUrls(ps) {
        var i :| 0 <= i < |s.pages| && s.pages[i].url == u;
        assert ps[i] == s.pages[i];
      }
      assert ps[|s.pages|] == page;
    }
    forall i, j | 0 <= i < j < |ps| ensures ps[i].url != ps[j].url {
      assert ps[i] == s.pages[i];
      if j == |s.pages| {
        assert s.pages[i].url in PageUrls(s.pages);
      } else {
        assert ps[j] == s.pages[j];
      }
    }
  }

  /** Pages after the first `k` are on the origin. */
  predicate OnOriginAfter(s: Scout, k: nat, origin: string) {
    forall i :: k <= i < |s.pages| ==> StartsWith(s.pages[i].url, origin)
  }

  /** One click target: a page reached is recorded when its URL is new
      and on the origin. `capture` takes a page's snapshot. */
  function ClickStep(origin: string, s: Scout, t: ClickTarget, out: ClickOutcome, capture: Dom -> UiSnapshot,
                     shotFails: string -> bool): (r: Scout)
    requires Consistent(s)
    ensures Consistent(r)
    ensures |s.pages| <= |r.pages| <= |s.pages| + 1 && r.pages[..|s.pages|] == s.pages
    ensures |r.pages| > |s.pages| ==>
              out.Landed? && out.url !in s.visited && StartsWith(out.url, origin) && r.pages[|s.pages|].url == out.url
    ensures out.Landed? && out.url !in s.visited && StartsWith(out.url, origin) ==> |r.pages| == |s.pages| + 1
  {
    match out
    case NotClicked => s
    case Landed(url, dom) =>
      if url !in s.visited && StartsWith(url, origin) then
        AppendConsistent(s, PageOf(|s.pages|, url, dom.title, capture(dom), Slug(t.text), shotFails));
        Record(s, url, dom.title, capture(dom), Slug(t.text), shotFails)
      else s
  }

  /** The click loop over the explored targets. */
  function Explore(origin: string, s: Scout, targets: seq<ClickTarget>, click: ClickTarget -> ClickOutcome,
                   capture: Dom -> UiSnapshot, shotFails: string -> bool): (r: Scout)
    requires Consistent(s)
    ensures Consistent(r)
    ensures |s.pages| <= |r.pages| <= |s.pages| + |targets| && r.pages[..|s.pages|] == s.pages
    ensures OnOriginAfter(r, |s.pages|, origin)
    decreases |targets|
  {
    if |targets| == 0 then s
    else
      var s1 := ClickStep(origin, s, targets[0], click(targets[0]), capture, shotFails);
      var r := Explore(origin, s1, targets[1..], click, capture, shotFails);
      assert r.pages[..|s.pages|] == r.pages[..|s1.pages|][..|s.pages|];
      forall i | |s.pages| <= i < |r.pages| ensures StartsWith(r.pages[i].url, origin) {
        if i < |s1.pages| {
          assert r.pages[i] == s1.pages[i];
        }
      }
      r
  }

  /** A common-path page is kept only if it shows an input or more than
      two buttons. */
  predicate WorthKeeping(ui: UiSnapshot) {
    |ui.inputs| > 0 || |ui.buttons| > 2
  }

  /** `baseUrl.replace(/\/$/, '')`: one trailing '/' removed. */
  function DropTrailingSlash(s: string): (r: string)
    ensures EndsWith(s, "/") ==> r == s[..|s| - 1]
    ensures !EndsWith(s, "/") ==> r == s
  {
    if EndsWith(s, "/") then s[..|s| - 1] else s
  }

  /** One common path: visited only when its URL is new; recorded when the
      response is below 400 and the final URL is new, on the origin, and
      the page is worth keeping. */
  function PathStep(baseUrl: string, origin: string, s: Scout, p: string, visit: string -> PathOutcome,
                    capture: Dom -> UiSnapshot, shotFails: string -> bool): (r: Scout)
    requires Consistent(s)
    ensures Consistent(r)
    ensures |s.pages| <= |r.pages| <= |s.pages| + 1 && r.pages[..|s.pages|] == s.pages
    ensures |r.pages| > |s.pages| ==>
              var out := visit(DropTrailingSlash(baseUrl) + p);
              DropTrailingSlash(baseUrl) + p !in s.visited
              && out.Answered? && out.status < 400 && out.url !in s.visited && StartsWith(out.url, origin)
              && WorthKeeping(r.pages[|s.pages|].ui) && r.pages[|s.pages|].url == out.url
  {
    var full := DropTrailingSlash(baseUrl) + p;
    if full in s.visited then s
    else
      match visit(full)
      case NoResponse => s
      case Answered(status, url, dom) =>
        if status < 400 && url !in s.visited && StartsWith(url, origin) && WorthKeeping(capture(dom)) then
          AppendConsistent(s, PageOf(|s.pages|, url, dom.title, capture(dom), PathLabel(p), shotFails));
          Record(s, url, dom.title, capture(dom), PathLabel(p), shotFails)
        else s
  }

  /** `path.replace('/', '')`: the first '/' removed. */
  function PathLabel(p: string): (r: string)
    ensures !Contains(p, "/") ==> r == p
    ensures Contains(p, "/") ==> |r| == |p| - 1
  {
    ContainsIff(p, "/");
    match IndexOfFrom(p, "/", 0)
    case None => p
    case Some(k) => p[..k] + p[k + 1..]
  }

  const CommonPaths: seq<string> := ["/login", "/signin", "/signup", "/register", "/pricing", "/plans"]

  /** The loop over the common paths. */
  function VisitPaths(baseUrl: string, origin: string, s: Scout, paths: seq<string>, visit: string -> PathOutcome,
                      capture: Dom -> UiSnapshot, shotFails: string -> bool): (r: Scout)
    requires Consistent(s)
    ensures Consistent(r)
    ensures |s.pages| <= |r.pages| <= |s.pages| + |paths| && r.pages[..|s.pages|] == s.pages
    ensures OnOriginAfter(r, |s.pages|, origin)
    ensures forall i :: |s.pages| <= i < |r.pages| ==> WorthKeeping(r.pages[i].ui)
    decreases |paths|
  {
    if |paths| == 0 then s
    else
      var s1 := PathStep(baseUrl, origin, s, paths[0], visit, capture, shotFails);
      var r := VisitPaths(baseUrl, origin, s1, paths[1..], visit, capture, shotFails);
      assert r.pages[..|s.pages|] == r.pages[..|s1.pages|][..|s.pages|];
      forall i | |s.pages| <= i < |r.pages| ensures StartsWith(r.pages[i].url, origin) && WorthKeeping(r.pages[i].ui) {
        if i < |s1.pages| {
          assert r.pages[i] == s1.pages[i];
        }
      }
      r
  }

  /** `scoutTarget`: the homepage, then up to 12 click targets, then the
      common paths. An unparseable base URL or a homepage that cannot be
      loaded gives no pages, and so does a `browser.close()` that rejects:
      it runs inside the `try`, whose `catch` returns []. `home` is the URL
      and DOM the homepage settled on; `capture` is the page snapshot,
      `Snapshot` in the source's scout; `closeFails` says whether closing
      the browser rejects. */
  function ScoutTarget(baseUrl: string, base: RawUrl, home: Option<(string, Dom)>,
                       click: ClickTarget -> ClickOutcome, visit: string -> PathOutcome,
                       capture: Dom -> UiSnapshot, shotFails: string -> bool, closeFails: bool): (r: seq<ScoutedPage>)
    ensures base.Malformed? || home.None? || closeFails ==> r == []
    ensures base.Parsed? && home.Some? && !closeFails ==>
              |r| >= 1 && r[0].url == home.value.0 && r[0].ui == capture(home.value.1)
    ensures |r| <= 1 + 12 + |CommonPaths|
    ensures forall i, j :: 0 <= i < j < |r| ==> r[i].url != r[j].url
    ensures forall i :: 1 <= i < |r| ==> base.Parsed? && StartsWith(r[i].url, base.url.origin)
  {
    match base
    case Malformed(_) => []
    case Parsed(u) =>
      match home
      case None => []
      case Some(h) =>
        var s0 := Record(Scout([], {}), h.0, h.1.title, capture(h.1), "homepage", shotFails);
        AppendConsistent(Scout([], {}), PageOf(0, h.0, h.1.title, capture(h.1), "homepage", shotFails));
        var s1 := Explore(u.origin, s0, Prefix(ClickTargets(h.1), 12), click, capture, shotFails);
        var s2 := VisitPaths(baseUrl, u.origin, s1, CommonPaths, visit, capture, shotFails);
        assert s2.pages[0] == s1.pages[0] == s0.pages[0];
        forall i | 1 <= i < |s2.pages| ensures StartsWith(s2.pages[i].url, u.origin) {
          if i < |s1.pages| {
            assert s2.pages[i] == s1.pages[i];
          }
        }
        if closeFails then [] else s2.pages
  }
}
