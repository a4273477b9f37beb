/**
 * Page assembly: wrapping a page's main content in the `base` partial by
 * substituting `{{placeholder}}` markers. Three generations of the generator
 * do this differently, and each is modelled:
 *  - `CreateFullPage`: every occurrence of each marker (global regular
 *    expressions), missing optional partials read as '' (ssg.js, old/ssg1603.js);
 *  - `CreateFullPageFirst`: seven markers, first occurrence only, missing
 *    partials inserted as the text "undefined" (old/ssg2.js);
 *  - `CreateFullPageFive`: five markers, first occurrence only (old/ssg.js).
 */
module Assembly {
  import opened Wrappers
  import opened JsValues
  import opened Text

  /** Partials by logical region name (`base`, `head`, `footer`, `index`, `404`, ...). */
  type Partials = map<string, string>

  /** The marker `{{name}}`. */
  function Placeholder(name: string): (p: string)
    ensures |p| == |name| + 4 && p[..2] == "{{" && p[|p| - 2..] == "}}"
  {
    "{{" + name + "}}"
  }

  /** One substitution step: the marker's name and the text put in its place. */
  datatype Step = Step(name: string, text: string)

  /** Every marker a step list replaces is absent from `s`. */
  predicate NoMarkers(s: string, steps: seq<Step>) {
    forall k :: 0 <= k < |steps| ==> Absent(s, Placeholder(steps[k].name))
  }

  /** Every replacement text of a step list is taken literally. */
  predicate StepsDollarFree(steps: seq<Step>) {
    forall k :: 0 <= k < |steps| ==> DollarFree(steps[k].text)
  }

  /** Applies `s.replace(/{{name}}/g, text)` for each step, in order. */
  function SubstituteAll(s: string, steps: seq<Step>): string
    decreases |steps|
  {
    if |steps| == 0 then s
    else SubstituteAll(ReplaceAll(s, Placeholder(steps[0].name), steps[0].text), steps[1..])
  }

  /** Applies `s.replace('{{name}}', text)` for each step, in order. */
  function SubstituteFirst(s: string, steps: seq<Step>): string
    decreases |steps|
  {
    if |steps| == 0 then s
    else SubstituteFirst(ReplaceFirst(s, Placeholder(steps[0].name), steps[0].text), steps[1..])
  }

  /** A template with none of the markers passes through global substitution unchanged. */
  lemma {:induction false} SubstituteAllNoMarkers(s: string, steps: seq<Step>)
    requires NoMarkers(s, steps)
    ensures SubstituteAll(s, steps) == s
    decreases |steps|
  {
    if |steps| > 0 {
      ReplaceAllAbsent(s, Placeholder(steps[0].name), steps[0].text);
      assert NoMarkers(s, steps[1..]) by {
        forall k | 0 <= k < |steps| - 1
          ensures Absent(s, Placeholder(steps[1..][k].name))
        {
          assert steps[1..][k] == steps[k + 1];
        }
      }
      SubstituteAllNoMarkers(s, steps[1..]);
    }
  }

  /** A template with none of the markers passes through first-occurrence substitution unchanged. */
  lemma {:induction false} SubstituteFirstNoMarkers(s: string, steps: seq<Step>)
    requires NoMarkers(s, steps)
    ensures SubstituteFirst(s, steps) == s
    decreases |steps|
  {
    if |steps| > 0 {
      assert NoMarkers(s, steps[1..]) by {
        forall k | 0 <= k < |steps| - 1
          ensures Absent(s, Placeholder(steps[1..][k].name))
        {
          assert steps[1..][k] == steps[k + 1];
        }
      }
      SubstituteFirstNoMarkers(s, steps[1..]);
    }
  }

  // ---------------------------------------------------------------------
  // Global substitution (ssg.js, old/ssg1603.js)

  /**
   * A JavaScript default parameter: `dflt` when the argument is `undefined`,
   * otherwise the argument converted to the string `.replace` inserts.
   */
  function Param(v: Value, dflt: string): (r: string)
    ensures v.Undefined? ==> r == dflt
    ensures v.Str? ==> r == v.s
  {
    if v.Undefined? then dflt else ToStr(v)
  }

  /** `partials[name] || ''`. */
  function Optional(partials: Partials, name: string): (r: string)
    ensures name in partials ==> r == partials[name]
    ensures name !in partials ==> r == ""
  {
    if name in partials then partials[name] else ""
  }

  /** The head partial with title, description, canonical URL and image substituted. */
  function HeadContent(partials: Partials, canonicalUrl: Value, title: Value, description: Value, image: Value): string {
    SubstituteAll(Optional(partials, "head"), HeadSteps(canonicalUrl, title, description, image))
  }

  function HeadSteps(canonicalUrl: Value, title: Value, description: Value, image: Value): seq<Step> {
    [ Step("title", Param(title, "Default Title")),
      Step("description", Param(description, "")),
      Step("canonicalUrl", Param(canonicalUrl, "")),
      Step("image", Param(image, "")) ]
  }

  /** The substitutions applied to `base`, in source order. */
  function BaseSteps(partials: Partials, main: string, canonicalUrl: Value, title: Value, description: Value, image: Value): seq<Step> {
    [ Step("head", HeadContent(partials, canonicalUrl, title, description, image)),
      Step("header", Optional(partials, "header")),
      Step("main", main),
      Step("footer", Optional(partials, "footer")),
      Step("aside", Optional(partials, "aside")),
      Step("canonicalUrl", Param(canonicalUrl, "")),
      Step("title", Param(title, "Default Title")) ]
  }

  /** What the caller must guarantee for the replacement texts to be taken literally. */
  predicate GlobalInputsDollarFree(partials: Partials, main: string, canonicalUrl: Value, title: Value, description: Value, image: Value) {
    && DollarFree(Optional(partials, "head"))
    && DollarFree(Optional(partials, "header"))
    && DollarFree(Optional(partials, "footer"))
    && DollarFree(Optional(partials, "aside"))
    && DollarFree(main)
    && DollarFree(Param(canonicalUrl, ""))
    && DollarFree(Param(title, "Default Title"))
    && DollarFree(Param(description, ""))
    && DollarFree(Param(image, ""))
  }

  /** The seven markers `base` is searched for. */
  const BaseMarkers: seq<string> := ["head", "header", "main", "footer", "aside", "canonicalUrl", "title"]

  predicate NoBaseMarkers(s: string) {
    forall k :: 0 <= k < |BaseMarkers| ==> Absent(s, Placeholder(BaseMarkers[k]))
  }

  /**
   * `createFullPage` with global replacement: the head partial is filled
   * first, then the seven markers of `base` are replaced in source order.
   * Reading `.replace` off a missing `base` partial throws.
   */
  function CreateFullPage(partials: Partials, main: string, canonicalUrl: Value, title: Value, description: Value, image: Value): (r: Result<string, Error>)
    requires GlobalInputsDollarFree(partials, main, canonicalUrl, title, description, image)
    ensures r.Ok? <==> "base" in partials
  {
    if "base" !in partials then Err(TypeError("Cannot read properties of undefined (reading 'replace')"))
    else Ok(SubstituteAll(partials["base"], BaseSteps(partials, main, canonicalUrl, title, description, image)))
  }

  /**
   * A base holding none of the seven markers comes back verbatim;
   * `{{description}}` and `{{image}}` are not among them.
   */
  lemma BaseWithoutMarkersVerbatim(partials: Partials, main: string, canonicalUrl: Value, title: Value, description: Value, image: Value)
    requires GlobalInputsDollarFree(partials, main, canonicalUrl, title, description, image)
    requires "base" in partials && NoBaseMarkers(partials["base"])
    ensures CreateFullPage(partials, main, canonicalUrl, title, description, image) == Ok(partials["base"])
  {
    var base := partials["base"];
    var steps := BaseSteps(partials, main, canonicalUrl, title, description, image);
    assert NoMarkers(base, steps) by {
      forall k | 0 <= k < |steps| ensures Absent(base, Placeholder(steps[k].name)) {
        assert steps[k].name == BaseMarkers[k];
      }
    }
    SubstituteAllNoMarkers(base, steps);
  }

  /** The partials `CreateFullPage` reads agree between two partial sets. */
  predicate SameReadPartials(p1: Partials, p2: Partials) {
    && ("base" in p1 <==> "base" in p2)
    && ("base" in p1 ==> p1["base"] == p2["base"])
    && Optional(p1, "head") == Optional(p2, "head")
    && Optional(p1, "header") == Optional(p2, "header")
    && Optional(p1, "footer") == Optional(p2, "footer")
    && Optional(p1, "aside") == Optional(p2, "aside")
  }

  lemma SameReadPartialsSameInputs(p1: Partials, p2: Partials, main: string, canonicalUrl: Value, title: Value, description: Value, image: Value)
    requires SameReadPartials(p1, p2)
    requires GlobalInputsDollarFree(p1, main, canonicalUrl, title, description, image)
    ensures GlobalInputsDollarFree(p2, main, canonicalUrl, title, description, image)
  {
  }

  lemma SameReadPartialsSameSteps(p1: Partials, p2: Partials, main: string, canonicalUrl: Value, title: Value, description: Value, image: Value)
    requires SameReadPartials(p1, p2)
    ensures BaseSteps(p1, main, canonicalUrl, title, description, image) == BaseSteps(p2, main, canonicalUrl, title, description, image)
  {
    assert HeadContent(p1, canonicalUrl, title, description, image) == HeadContent(p2, canonicalUrl, title, description, image);
  }

  lemma SameReadPartialsSamePage(p1: Partials, p2: Partials, main: string, canonicalUrl: Value, title: Value, description: Value, image: Value)
    requires SameReadPartials(p1, p2)
    requires GlobalInputsDollarFree(p1, main, canonicalUrl, title, description, image)
    ensures GlobalInputsDollarFree(p2, main, canonicalUrl, title, description, image)
    ensures CreateFullPage(p1, main, canonicalUrl, title, description, image)
         == CreateFullPage(p2, main, canonicalUrl, title, description, image)
  {
    SameReadPartialsSameInputs(p1, p2, main, canonicalUrl, title, description, image);
    SameReadPartialsSameSteps(p1, p2, main, canonicalUrl, title, description, image);
    SameStepsSamePage(p1, p2, main, canonicalUrl, title, description, image);
  }

  lemma SameStepsSamePage(p1: Partials, p2: Partials, main: string, canonicalUrl: Value, title: Value, description: Value, image: Value)
    requires SameReadPartials(p1, p2)
    requires GlobalInputsDollarFree(p1, main, canonicalUrl, title, description, image)
    requires GlobalInputsDollarFree(p2, main, canonicalUrl, title, description, image)
    requires BaseSteps(p1, main, canonicalUrl, title, description, image) == BaseSteps(p2, main, canonicalUrl, title, description, image)
    ensures CreateFullPage(p1, main, canonicalUrl, title, description, image)
         == CreateFullPage(p2, main, canonicalUrl, title, description, image)
  {
  }

  /** A missing optional partial assembles exactly like an empty one. */
  lemma MissingPartialIsEmpty(partials: Partials, name: string, main: string, canonicalUrl: Value, title: Value, description: Value, image: Value)
    requires name == "head" || name == "header" || name == "footer" || name == "aside"
    requires name !in partials
    requires GlobalInputsDollarFree(partials, main, canonicalUrl, title, description, image)
    ensures GlobalInputsDollarFree(partials[name := ""], main, canonicalUrl, title, description, image)
    ensures CreateFullPage(partials, main, canonicalUrl, title, description, image)
         == CreateFullPage(partials[name := ""], main, canonicalUrl, title, description, image)
  {
    SameReadPartialsSamePage(partials, partials[name := ""], main, canonicalUrl, title, description, image);
  }

  /** Omitted arguments take the documented defaults. */
  lemma DefaultParameters(partials: Partials, main: string)
    requires GlobalInputsDollarFree(partials, main, Undefined, Undefined, Undefined, Undefined)
    ensures GlobalInputsDollarFree(partials, main, Str(""), Str("Default Title"), Str(""), Str(""))
    ensures CreateFullPage(partials, main, Undefined, Undefined, Undefined, Undefined)
         == CreateFullPage(partials, main, Str(""), Str("Default Title"), Str(""), Str(""))
  {
    assert HeadSteps(Undefined, Undefined, Undefined, Undefined) == HeadSteps(Str(""), Str("Default Title"), Str(""), Str(""));
    assert BaseSteps(partials, main, Undefined, Undefined, Undefined, Undefined)
        == BaseSteps(partials, main, Str(""), Str("Default Title"), Str(""), Str(""));
  }

  /**
   * Description and image reach the page only through the head partial: when
   * `base` has no `{{head}}` marker they do not influence the result.
   */
  lemma {:induction false} DescriptionOnlyInHead(partials: Partials, main: string, canonicalUrl: Value, title: Value,
                                                 d1: Value, i1: Value, d2: Value, i2: Value)
    requires "base" in partials && Absent(partials["base"], Placeholder("head"))
    requires GlobalInputsDollarFree(partials, main, canonicalUrl, title, d1, i1)
    requires GlobalInputsDollarFree(partials, main, canonicalUrl, title, d2, i2)
    ensures CreateFullPage(partials, main, canonicalUrl, title, d1, i1)
         == CreateFullPage(partials, main, canonicalUrl, title, d2, i2)
  {
    var base := partials["base"];
    var s1 := BaseSteps(partials, main, canonicalUrl, title, d1, i1);
    var s2 := BaseSteps(partials, main, canonicalUrl, title, d2, i2);
    ReplaceAllAbsent(base, Placeholder("head"), s1[0].text);
    ReplaceAllAbsent(base, Placeholder("head"), s2[0].text);
    assert s1[1..] == s2[1..];
    assert SubstituteAll(base, s1) == SubstituteAll(base, s1[1..]);
    assert SubstituteAll(base, s2) == SubstituteAll(base, s2[1..]);
  }

  // ---------------------------------------------------------------------
  // Markers embedded in brace-free text

  /** Text with no opening brace, so the only markers are the ones placed in it. */
  predicate BraceFree(s: string) {
    '{' !in s
  }

  /** One step of `SubstituteAll`. */
  lemma SubstituteAllStep(s: string, steps: seq<Step>)
    requires |steps| > 0
    ensures SubstituteAll(s, steps) == SubstituteAll(ReplaceAll(s, Placeholder(steps[0].name), steps[0].text), steps[1..])
  {
  }

  /** Brace-free text holds no marker. */
  lemma BraceFreeHasNoMarker(s: string, name: string)
    requires BraceFree(s)
    ensures Absent(s, Placeholder(name))
  {
    var p := Placeholder(name);
    forall i | 0 <= i <= |s| ensures !OccursAt(s, p, i) {
      if i + |p| <= |s| {
        assert s[i..i + |p|][0] == s[i] != '{';
      }
    }
  }

  /** Around one `{{name}}` marker in brace-free text, a marker with another first letter does not occur. */
  lemma OtherMarkerAbsent(a: string, name: string, b: string, other: string)
    requires BraceFree(a) && BraceFree(b) && BraceFree(name) && |name| > 0 && |other| > 0 && name[0] != other[0]
    ensures Absent(a + Placeholder(name) + b, Placeholder(other))
  {
    var m := Placeholder(name);
    var s := a + m + b;
    var p := Placeholder(other);
    forall i | 0 <= i <= |s| ensures !OccursAt(s, p, i) {
      if i + |p| <= |s| {
        var w := s[i..i + |p|];
        if i < |a| {
          assert w[0] == a[i];
        } else if i == |a| {
          assert w[2] == m[2] == name[0];
        } else if i == |a| + 1 {
          assert w[1] == m[2] == name[0];
        } else if i < |a| + |name| + 2 {
          assert w[0] == m[i - |a|] == name[i - |a| - 2];
        } else if i < |a| + |name| + 4 {
          assert w[0] == m[i - |a|] == '}';
        } else {
          assert w[0] == b[i - |a| - |m|];
        }
      }
    }
  }

  /** Global replacement of the one marker placed in brace-free text. */
  lemma ReplaceSoleMarker(a: string, name: string, b: string, rep: string)
    requires BraceFree(a) && BraceFree(b)
    ensures ReplaceAll(a + Placeholder(name) + b, Placeholder(name), rep) == a + rep + b
  {
    BraceFreeHasNoMarker(b, name);
    ReplaceMarkerBeforeAbsent(a, name, b, rep);
  }

  /** `{{description}}` and `{{image}}` are not among the markers `base` is searched for. */
  lemma HeadOnlyMarkerSurvives(a: string, name: string, b: string)
    requires name == "description" || name == "image"
    requires BraceFree(a) && BraceFree(b)
    ensures NoBaseMarkers(a + Placeholder(name) + b)
  {
    forall k | 0 <= k < |BaseMarkers|
      ensures Absent(a + Placeholder(name) + b, Placeholder(BaseMarkers[k]))
    {
      OtherMarkerAbsent(a, name, b, BaseMarkers[k]);
    }
  }

  /** `{{description}}` or `{{image}}` written in `base` itself survives into the page. */
  lemma DescriptionMarkerSurvivesInBase(partials: Partials, a: string, name: string, b: string,
                                        main: string, canonicalUrl: Value, title: Value, description: Value, image: Value)
    requires name == "description" || name == "image"
    requires BraceFree(a) && BraceFree(b)
    requires "base" in partials && partials["base"] == a + Placeholder(name) + b
    requires GlobalInputsDollarFree(partials, main, canonicalUrl, title, description, image)
    ensures CreateFullPage(partials, main, canonicalUrl, title, description, image) == Ok(a + Placeholder(name) + b)
  {
    HeadOnlyMarkerSurvives(a, name, b);
    BaseWithoutMarkersVerbatim(partials, main, canonicalUrl, title, description, image);
  }

  /**
   * The same with the head filled in front of it: a brace-free head partial
   * replaces `{{head}}`, and a later `{{description}}` or `{{image}}` in
   * `base` is still left as it is.
   */
  lemma DescriptionMarkerSurvivesHead(partials: Partials, a: string, b: string, name: string, c: string,
                                      main: string, canonicalUrl: Value, title: Value, description: Value, image: Value)
    requires name == "description" || name == "image"
    requires BraceFree(a) && BraceFree(b) && BraceFree(c) && BraceFree(Optional(partials, "head"))
    requires "base" in partials && partials["base"] == a + Placeholder("head") + (b + Placeholder(name) + c)
    requires GlobalInputsDollarFree(partials, main, canonicalUrl, title, description, image)
    ensures CreateFullPage(partials, main, canonicalUrl, title, description, image)
         == Ok(a + Optional(partials, "head") + b + Placeholder(name) + c)
  {
    var steps := BaseSteps(partials, main, canonicalUrl, title, description, image);
    HeadWithoutMarkers(Optional(partials, "head"), HeadSteps(canonicalUrl, title, description, image));
    assert forall k :: 1 <= k < 7 ==> steps[k].name == BaseMarkers[k];
    HeadThenSurvivorSteps(steps, a, b, name, c);
    assert CreateFullPage(partials, main, canonicalUrl, title, description, image) == Ok(SubstituteAll(partials["base"], steps));
  }

  lemma HeadThenSurvivorSteps(steps: seq<Step>, a: string, b: string, name: string, c: string)
    requires name == "description" || name == "image"
    requires |steps| == 7 && steps[0].name == "head"
    requires BraceFree(a) && BraceFree(b) && BraceFree(c) && BraceFree(steps[0].text)
    requires forall k :: 1 <= k < 7 ==> steps[k].name == BaseMarkers[k]
    ensures SubstituteAll(a + Placeholder("head") + (b + Placeholder(name) + c), steps)
         == a + steps[0].text + b + Placeholder(name) + c
  {
    var h := steps[0].text;
    var z := b + Placeholder(name) + c;
    OtherMarkerAbsent(b, name, c, "head");
    ReplaceMarkerBeforeAbsent(a, "head", z, h);
    SubstituteAllStep(a + Placeholder("head") + z, steps);
    RegroupMarker(a, h, b, Placeholder(name), c);
    BraceFreeJoin(a, h, b);
    SurvivorTail(a + h + b, name, c, steps[1..]);
  }

  /** The six later steps on text whose only marker is `{{description}}` or `{{image}}`. */
  lemma SurvivorTail(x: string, name: string, c: string, rest: seq<Step>)
    requires name == "description" || name == "image"
    requires BraceFree(x) && BraceFree(c)
    requires |rest| == 6 && forall k :: 0 <= k < 6 ==> rest[k].name == BaseMarkers[k + 1]
    ensures SubstituteAll(x + Placeholder(name) + c, rest) == x + Placeholder(name) + c
  {
    HeadOnlyMarkerSurvives(x, name, c);
    assert NoMarkers(x + Placeholder(name) + c, rest) by {
      forall k | 0 <= k < |rest| ensures Absent(x + Placeholder(name) + c, Placeholder(rest[k].name)) {
        assert rest[k].name == BaseMarkers[k + 1];
      }
    }
    SubstituteAllNoMarkers(x + Placeholder(name) + c, rest);
  }

  /** A brace-free head partial is left as it is by its own substitutions. */
  lemma HeadWithoutMarkers(h: string, steps: seq<Step>)
    requires BraceFree(h)
    ensures SubstituteAll(h, steps) == h
  {
    forall k | 0 <= k < |steps| ensures Absent(h, Placeholder(steps[k].name)) {
      BraceFreeHasNoMarker(h, steps[k].name);
    }
    SubstituteAllNoMarkers(h, steps);
  }

  /** Global replacement of a marker that follows brace-free text and does not recur after it. */
  lemma ReplaceMarkerBeforeAbsent(a: string, name: string, z: string, rep: string)
    requires BraceFree(a) && Absent(z, Placeholder(name))
    ensures ReplaceAll(a + Placeholder(name) + z, Placeholder(name), rep) == a + rep + z
  {
    var p := Placeholder(name);
    var s := a + p + z;
    forall j | 0 <= j < |a| ensures !OccursAt(s, p, j) {
      if j + |p| <= |s| {
        assert s[j..j + |p|][0] == a[j] != '{';
      }
    }
    ScanSkipsPrefix(s, p, rep, |a|);
    assert s[..|a|] == a;
    assert s[|a|..] == p + z;
    assert (p + z)[..|p|] == p;
    assert (p + z)[|p|..] == z;
    ReplaceAllAbsent(z, p, rep);
  }

  /**
   * Substitution is chained: a `{{title}}` marker inside the main content is
   * filled by the later title step, like one written in `base`.
   */
  lemma MainContentIsResubstituted(partials: Partials, a: string, b: string, c: string, d: string, title: string)
    requires "base" in partials && partials["base"] == a + Placeholder("main") + b
    requires BraceFree(a) && BraceFree(b) && BraceFree(c) && BraceFree(d)
    requires GlobalInputsDollarFree(partials, c + Placeholder("title") + d, Undefined, Str(title), Undefined, Undefined)
    ensures CreateFullPage(partials, c + Placeholder("title") + d, Undefined, Str(title), Undefined, Undefined)
         == Ok(a + c + title + d + b)
  {
    var main := c + Placeholder("title") + d;
    var steps := BaseSteps(partials, main, Undefined, Str(title), Undefined, Undefined);
    var s0 := a + Placeholder("main") + b;
    var s1 := (a + c) + Placeholder("title") + (d + b);
    assert a + main + b == s1;
    ChainedTail(s1, steps[3..], a + c, d + b, title);
    OtherMarkerAbsent(a, "main", b, "head");
    ReplaceAllAbsent(s0, Placeholder("head"), steps[0].text);
    SubstituteAllStep(s0, steps);
    OtherMarkerAbsent(a, "main", b, "header");
    ReplaceAllAbsent(s0, Placeholder("header"), steps[1].text);
    SubstituteAllStep(s0, steps[1..]);
    ReplaceSoleMarker(a, "main", b, main);
    SubstituteAllStep(s0, steps[2..]);
    assert steps[2..][1..] == steps[3..];
    assert steps[1..][1..] == steps[2..];
    assert SubstituteAll(s0, steps) == SubstituteAll(s0, steps[1..]);
    assert SubstituteAll(s0, steps[1..]) == SubstituteAll(s0, steps[2..]);
    assert SubstituteAll(s0, steps[2..]) == SubstituteAll(s1, steps[3..]);
    assert SubstituteAll(s1, steps[3..]) == (a + c) + title + (d + b);
    assert (a + c) + title + (d + b) == a + c + title + d + b;
    assert CreateFullPage(partials, main, Undefined, Str(title), Undefined, Undefined) == Ok(SubstituteAll(s0, steps));
  }

  /** The footer, aside, canonical URL and title steps applied to text whose only marker is `{{title}}`. */
  lemma ChainedTail(s: string, tail: seq<Step>, x: string, y: string, title: string)
    requires s == x + Placeholder("title") + y && BraceFree(x) && BraceFree(y)
    requires |tail| == 4 && tail[0].name == "footer" && tail[1].name == "aside"
    requires tail[2].name == "canonicalUrl" && tail[3] == Step("title", title)
    ensures SubstituteAll(s, tail) == x + title + y
  {
    OtherMarkerAbsent(x, "title", y, "footer");
    ReplaceAllAbsent(s, Placeholder("footer"), tail[0].text);
    SubstituteAllStep(s, tail);
    OtherMarkerAbsent(x, "title", y, "aside");
    ReplaceAllAbsent(s, Placeholder("aside"), tail[1].text);
    SubstituteAllStep(s, tail[1..]);
    OtherMarkerAbsent(x, "title", y, "canonicalUrl");
    ReplaceAllAbsent(s, Placeholder("canonicalUrl"), tail[2].text);
    SubstituteAllStep(s, tail[2..]);
    ReplaceSoleMarker(x, "title", y, title);
    SubstituteAllStep(s, tail[3..]);
    assert tail[1..][1..] == tail[2..];
    assert tail[2..][1..] == tail[3..];
    assert tail[3..][1..] == [];
  }

  // ---------------------------------------------------------------------
  // Several markers in one text

  /** A marker name holding no brace at all. */
  predicate PlainName(name: string) {
    |name| > 0 && '{' !in name && '}' !in name
  }

  /**
   * Two marker-free texts stay marker-free when joined, provided the first
   * ends with the `}}` that closes a marker (so no marker can straddle them).
   */
  lemma AbsentJoin(u: string, v: string, name: string)
    requires PlainName(name) && |u| >= 2 && u[|u| - 2] == '}' && u[|u| - 1] == '}'
    requires Absent(u, Placeholder(name)) && Absent(v, Placeholder(name))
    ensures Absent(u + v, Placeholder(name))
  {
    var p := Placeholder(name);
    var s := u + v;
    forall i | 0 <= i <= |s| ensures !OccursAt(s, p, i) {
      if i + |p| <= |s| {
        var w := s[i..i + |p|];
        if i + |p| <= |u| {
          assert w == u[i..i + |p|];
          assert !OccursAt(u, p, i);
        } else if i >= |u| {
          assert w == v[i - |u|..i - |u| + |p|];
          assert !OccursAt(v, p, i - |u|);
        } else {
          StraddleIsNoMarker(u, v, name, i);
        }
      }
    }
  }

  /** A window that starts inside `u` and ends inside `v` is no marker: it would hold `u`'s closing braces too early. */
  lemma StraddleIsNoMarker(u: string, v: string, name: string, i: nat)
    requires PlainName(name) && |u| >= 2 && u[|u| - 2] == '}' && u[|u| - 1] == '}'
    requires i < |u| < i + |Placeholder(name)| <= |u| + |v|
    ensures !OccursAt(u + v, Placeholder(name), i)
  {
    var p := Placeholder(name);
    var s := u + v;
    var k := |u| - 1 - i;
    assert s[i + k] == '}' && s[i + k - 1] == '}' by {
      assert s[i + k] == u[|u| - 1] && (k >= 1 ==> s[i + k - 1] == u[|u| - 2]);
    }
    if k < 2 {
      assert p[k] == p[..2][k] == '{';
    } else if k < |p| - 2 {
      assert p[k] == name[k - 2];
    } else {
      assert p[k - 1] == name[|name| - 1];
    }
  }

  /** In text with a marker-free prefix, the marker right after it is the leftmost. */
  lemma ReplaceFirstMarker(x: string, name: string, z: string, rep: string)
    requires BraceFree(x)
    ensures ReplaceFirst(x + Placeholder(name) + z, Placeholder(name), rep) == x + rep + z
  {
    var p := Placeholder(name);
    var s := x + p + z;
    assert s[|x|..|x| + |p|] == p;
    forall j | 0 <= j < |x| ensures !OccursAt(s, p, j) {
      if j + |p| <= |s| {
        assert s[j..j + |p|][0] == x[j] != '{';
      }
    }
    assert IsFirst(s, p, |x|);
    ReplaceFirstAt(s, p, rep, |x|);
    assert s[..|x|] == x;
    assert s[|x| + |p|..] == z;
  }

  /** One step of `SubstituteFirst`. */
  lemma SubstituteFirstStep(s: string, steps: seq<Step>)
    requires |steps| > 0
    ensures SubstituteFirst(s, steps) == SubstituteFirst(ReplaceFirst(s, Placeholder(steps[0].name), steps[0].text), steps[1..])
  {
  }

  /** A first-occurrence step whose marker directly follows brace-free text. */
  lemma SubstituteFirstMarkerStep(x: string, z: string, steps: seq<Step>)
    requires |steps| > 0 && BraceFree(x)
    ensures SubstituteFirst(x + Placeholder(steps[0].name) + z, steps) == SubstituteFirst(x + steps[0].text + z, steps[1..])
  {
    ReplaceFirstMarker(x, steps[0].name, z, steps[0].text);
  }

  /** A first-occurrence step whose marker starts the text. */
  lemma SubstituteFirstLeadingStep(z: string, steps: seq<Step>)
    requires |steps| > 0
    ensures SubstituteFirst(Placeholder(steps[0].name) + z, steps) == SubstituteFirst(steps[0].text + z, steps[1..])
  {
    var p := Placeholder(steps[0].name);
    var s := p + z;
    assert s[0..|p|] == p;
    assert IsFirst(s, p, 0);
    ReplaceFirstAt(s, p, steps[0].text, 0);
    assert s[..0] + steps[0].text + s[|p|..] == steps[0].text + z;
    SubstituteFirstStep(s, steps);
  }

  /** A step whose marker is absent leaves the text to the remaining steps. */
  lemma SkipAbsentStep(s: string, steps: seq<Step>)
    requires |steps| > 0 && Absent(s, Placeholder(steps[0].name))
    ensures SubstituteFirst(s, steps) == SubstituteFirst(s, steps[1..])
  {
    SubstituteFirstStep(s, steps);
  }

  /** Steps whose markers are absent leave the text to the remaining steps. */
  lemma {:induction false} SkipAbsentSteps(s: string, steps: seq<Step>, n: nat)
    requires n <= |steps|
    requires forall k :: 0 <= k < n ==> Absent(s, Placeholder(steps[k].name))
    ensures SubstituteFirst(s, steps) == SubstituteFirst(s, steps[n..])
    decreases n
  {
    if n > 0 {
      SubstituteFirstStep(s, steps);
      SkipAbsentSteps(s, steps[1..], n - 1);
      assert steps[1..][n - 1..] == steps[n..];
    }
  }

  // ---------------------------------------------------------------------
  // First-occurrence substitution (old/ssg2.js, old/ssg.js)

  /** `partials[name]` handed straight to `.replace`: a missing partial becomes "undefined". */
  function Raw(partials: Partials, name: string): (r: string)
    ensures name in partials ==> r == partials[name]
    ensures name !in partials ==> r == "undefined"
  {
    if name in partials then partials[name] else "undefined"
  }

  /** The seven substitutions of old/ssg2.js, in source order. */
  function SevenSteps(partials: Partials, main: string, canonicalUrl: Value, title: Value): seq<Step> {
    [ Step("head", Raw(partials, "head")),
      Step("header", Raw(partials, "header")),
      Step("main", main),
      Step("footer", Raw(partials, "footer")),
      Step("aside", Raw(partials, "aside")),
      Step("canonicalUrl", ToStr(Or(canonicalUrl, Str("")))),
      Step("title", ToStr(Or(title, Str("Default Title")))) ]
  }

  /** The first five of those, which are all old/ssg.js substitutes. */
  function FiveSteps(partials: Partials, main: string): seq<Step> {
    [ Step("head", Raw(partials, "head")),
      Step("header", Raw(partials, "header")),
      Step("main", main),
      Step("footer", Raw(partials, "footer")),
      Step("aside", Raw(partials, "aside")) ]
  }

  /**
   * `createFullPage` of old/ssg2.js: each of the seven markers is replaced at
   * its first occurrence in the text built so far; a falsy canonical URL
   * becomes '' and a falsy title 'Default Title'.
   */
  function CreateFullPageFirst(partials: Partials, main: string, canonicalUrl: Value, title: Value): (r: Result<string, Error>)
    requires StepsDollarFree(SevenSteps(partials, main, canonicalUrl, title))
    ensures r.Ok? <==> "base" in partials
  {
    if "base" !in partials then Err(TypeError("Cannot read properties of undefined (reading 'replace')"))
    else Ok(SubstituteFirst(partials["base"], SevenSteps(partials, main, canonicalUrl, title)))
  }

  /**
   * `createFullPage` of old/ssg.js: only head, header, main, footer and aside,
   * each at its first occurrence.
   */
  function CreateFullPageFive(partials: Partials, main: string): (r: Result<string, Error>)
    requires StepsDollarFree(FiveSteps(partials, main))
    ensures r.Ok? <==> "base" in partials
  {
    if "base" !in partials then Err(TypeError("Cannot read properties of undefined (reading 'replace')"))
    else Ok(SubstituteFirst(partials["base"], FiveSteps(partials, main)))
  }

  /** A missing partial is inserted as the text "undefined" (there is no `|| ''`). */
  lemma MissingPartialIsUndefinedText(partials: Partials, name: string, main: string, canonicalUrl: Value, title: Value)
    requires name == "head" || name == "header" || name == "footer" || name == "aside"
    requires name !in partials
    requires StepsDollarFree(SevenSteps(partials, main, canonicalUrl, title))
    ensures SevenSteps(partials[name := "undefined"], main, canonicalUrl, title) == SevenSteps(partials, main, canonicalUrl, title)
    ensures CreateFullPageFirst(partials, main, canonicalUrl, title)
         == CreateFullPageFirst(partials[name := "undefined"], main, canonicalUrl, title)
  {
    var p2 := partials[name := "undefined"];
    assert Raw(p2, "head") == Raw(partials, "head");
    assert Raw(p2, "header") == Raw(partials, "header");
    assert Raw(p2, "footer") == Raw(partials, "footer");
    assert Raw(p2, "aside") == Raw(partials, "aside");
    assert SevenSteps(p2, main, canonicalUrl, title) == SevenSteps(partials, main, canonicalUrl, title);
    SameSevenStepsSamePage(partials, p2, main, canonicalUrl, title);
  }

  lemma SameSevenStepsSamePage(p1: Partials, p2: Partials, main: string, canonicalUrl: Value, title: Value)
    requires ("base" in p1 <==> "base" in p2) && ("base" in p1 ==> p1["base"] == p2["base"])
    requires SevenSteps(p1, main, canonicalUrl, title) == SevenSteps(p2, main, canonicalUrl, title)
    requires StepsDollarFree(SevenSteps(p1, main, canonicalUrl, title))
    ensures CreateFullPageFirst(p1, main, canonicalUrl, title) == CreateFullPageFirst(p2, main, canonicalUrl, title)
  {
  }

  /** Any falsy title or canonical URL is replaced by its default (`||`, unlike a default parameter). */
  lemma FalsyArgumentsDefault(partials: Partials, main: string, canonicalUrl: Value, title: Value)
    requires !Truthy(canonicalUrl) && !Truthy(title)
    requires StepsDollarFree(SevenSteps(partials, main, canonicalUrl, title))
    ensures SevenSteps(partials, main, Str(""), Str("Default Title")) == SevenSteps(partials, main, canonicalUrl, title)
    ensures CreateFullPageFirst(partials, main, canonicalUrl, title)
         == CreateFullPageFirst(partials, main, Str(""), Str("Default Title"))
  {
    assert SevenSteps(partials, main, Str(""), Str("Default Title")) == SevenSteps(partials, main, canonicalUrl, title);
  }

  /**
   * Substitution order matters: a `{{title}}` inside the inserted head
   * partial comes before the base's own `{{title}}`, so it is the one
   * filled, and the base's marker survives.
   */
  lemma HeadTitleConsumedFirst(partials: Partials, x: string, y: string, main: string, canonicalUrl: Value, title: Value)
    requires "base" in partials && partials["base"] == Placeholder("head") + Placeholder("title")
    requires "head" in partials && partials["head"] == x + Placeholder("title") + y
    requires BraceFree(x) && BraceFree(y)
    requires StepsDollarFree(SevenSteps(partials, main, canonicalUrl, title))
    ensures CreateFullPageFirst(partials, main, canonicalUrl, title)
         == Ok(x + ToStr(Or(title, Str("Default Title"))) + y + Placeholder("title"))
  {
    var steps := SevenSteps(partials, main, canonicalUrl, title);
    HeadTitleSteps(steps, x, y, ToStr(Or(title, Str("Default Title"))));
    assert CreateFullPageFirst(partials, main, canonicalUrl, title) == Ok(SubstituteFirst(partials["base"], steps));
  }

  lemma HeadTitleSteps(steps: seq<Step>, x: string, y: string, t: string)
    requires |steps| == 7 && BraceFree(x) && BraceFree(y)
    requires steps[0] == Step("head", x + Placeholder("title") + y)
    requires steps[1].name == "header" && steps[2].name == "main" && steps[3].name == "footer"
    requires steps[4].name == "aside" && steps[5].name == "canonicalUrl" && steps[6] == Step("title", t)
    ensures SubstituteFirst(Placeholder("head") + Placeholder("title"), steps) == x + t + y + Placeholder("title")
  {
    var T := Placeholder("title");
    var v := y + T;
    SubstituteFirstLeadingStep(T, steps);
    var s1 := x + T + v;
    Regroup(x, T, y, T);
    var rest := steps[1..];
    SkipPastTitlePair(x, y, rest);
    var last := rest[5..];
    assert last[0].name == "title" && last[0].text == t && last[1..] == [];
    SubstituteFirstMarkerStep(x, v, last);
    Regroup(x, t, y, T);
  }

  /** No step before the title step finds its marker in two `{{title}}`-only texts. */
  lemma SkipPastTitlePair(x: string, y: string, rest: seq<Step>)
    requires |rest| == 6 && BraceFree(x) && BraceFree(y)
    requires rest[0].name == "header" && rest[1].name == "main" && rest[2].name == "footer"
    requires rest[3].name == "aside" && rest[4].name == "canonicalUrl"
    ensures SubstituteFirst(x + Placeholder("title") + (y + Placeholder("title")), rest)
         == SubstituteFirst(x + Placeholder("title") + (y + Placeholder("title")), rest[5..])
  {
    var s1 := x + Placeholder("title") + (y + Placeholder("title"));
    MarkerPairAbsent(x, y, "header");
    MarkerPairAbsent(x, y, "main");
    MarkerPairAbsent(x, y, "footer");
    MarkerPairAbsent(x, y, "aside");
    MarkerPairAbsent(x, y, "canonicalUrl");
    SkipFiveAbsent(s1, rest);
  }

  /** Five steps whose markers are all absent leave the text to the sixth. */
  lemma SkipFiveAbsent(s: string, rest: seq<Step>)
    requires |rest| == 6
    requires Absent(s, Placeholder(rest[0].name)) && Absent(s, Placeholder(rest[1].name))
    requires Absent(s, Placeholder(rest[2].name)) && Absent(s, Placeholder(rest[3].name))
    requires Absent(s, Placeholder(rest[4].name))
    ensures SubstituteFirst(s, rest) == SubstituteFirst(s, rest[5..])
  {
    SkipAbsentSteps(s, rest, 5);
  }

  lemma Regroup(a: string, b: string, c: string, d: string)
    ensures (a + b + c) + d == a + b + (c + d) == (a + b) + (c + d)
  {
  }

  lemma RegroupMarker(a: string, h: string, b: string, m: string, v: string)
    ensures a + h + (b + m + v) == (a + h + b + m) + v
  {
  }

  lemma BraceFreeJoin(a: string, h: string, b: string)
    requires BraceFree(a) && BraceFree(h) && BraceFree(b)
    ensures BraceFree(a + h + b)
  {
  }

  /** Two `{{title}}` markers after brace-free texts hide no other marker. */
  lemma MarkerPairAbsent(x: string, y: string, n: string)
    requires BraceFree(x) && BraceFree(y) && PlainName(n) && n[0] != 't'
    ensures Absent((x + Placeholder("title")) + (y + Placeholder("title")), Placeholder(n))
  {
    OtherMarkerAbsent(x, "title", "", n);
    OtherMarkerAbsent(y, "title", "", n);
    assert x + Placeholder("title") + "" == x + Placeholder("title");
    assert y + Placeholder("title") + "" == y + Placeholder("title");
    AbsentJoin(x + Placeholder("title"), y + Placeholder("title"), n);
  }

  /** A base without the five markers is written verbatim by old/ssg.js. */
  lemma FiveWithoutMarkersVerbatim(partials: Partials, main: string)
    requires StepsDollarFree(FiveSteps(partials, main))
    requires "base" in partials && NoMarkers(partials["base"], FiveSteps(partials, main))
    ensures CreateFullPageFive(partials, main) == Ok(partials["base"])
  {
    SubstituteFirstNoMarkers(partials["base"], FiveSteps(partials, main));
  }

  /** `{{title}}` and `{{canonicalUrl}}` pass through old/ssg.js untouched. */
  lemma TitleAndCanonicalPassThrough(partials: Partials, main: string)
    requires StepsDollarFree(FiveSteps(partials, main))
    requires "base" in partials && partials["base"] == Placeholder("title") + Placeholder("canonicalUrl")
    ensures CreateFullPageFive(partials, main) == Ok(Placeholder("title") + Placeholder("canonicalUrl"))
  {
    var steps := FiveSteps(partials, main);
    forall k | 0 <= k < |steps| ensures Absent(partials["base"], Placeholder(steps[k].name)) {
      var n := steps[k].name;
      OtherMarkerAbsent("", "title", "", n);
      OtherMarkerAbsent("", "canonicalUrl", "", n);
      assert "" + Placeholder("title") + "" == Placeholder("title");
      assert "" + Placeholder("canonicalUrl") + "" == Placeholder("canonicalUrl");
      AbsentJoin(Placeholder("title"), Placeholder("canonicalUrl"), n);
    }
    FiveWithoutMarkersVerbatim(partials, main);
  }

  /**
   * The same with a substituted marker in front: the head partial fills
   * `{{head}}`, and the `{{title}}` and `{{canonicalUrl}}` after it are left
   * as they are.
   */
  lemma TitleAndCanonicalSurviveHead(partials: Partials, main: string, a: string, b: string, c: string, d: string)
    requires StepsDollarFree(FiveSteps(partials, main))
    requires BraceFree(a) && BraceFree(b) && BraceFree(c) && BraceFree(d) && BraceFree(Raw(partials, "head"))
    requires "base" in partials
    requires partials["base"] == a + Placeholder("head") + (b + Placeholder("title") + (c + Placeholder("canonicalUrl") + d))
    ensures CreateFullPageFive(partials, main)
         == Ok(a + Raw(partials, "head") + (b + Placeholder("title") + (c + Placeholder("canonicalUrl") + d)))
  {
    var steps := FiveSteps(partials, main);
    HeadThenTitleCanonicalSteps(steps, a, b, c, d);
    assert CreateFullPageFive(partials, main) == Ok(SubstituteFirst(partials["base"], steps));
  }

  lemma HeadThenTitleCanonicalSteps(steps: seq<Step>, a: string, b: string, c: string, d: string)
    requires |steps| == 5 && BraceFree(a) && BraceFree(b) && BraceFree(c) && BraceFree(d) && BraceFree(steps[0].text)
    requires steps[0].name == "head" && steps[1].name == "header" && steps[2].name == "main"
    requires steps[3].name == "footer" && steps[4].name == "aside"
    ensures SubstituteFirst(a + Placeholder("head") + (b + Placeholder("title") + (c + Placeholder("canonicalUrl") + d)), steps)
         == a + steps[0].text + (b + Placeholder("title") + (c + Placeholder("canonicalUrl") + d))
  {
    var v := c + Placeholder("canonicalUrl") + d;
    var z := b + Placeholder("title") + v;
    var w := a + steps[0].text + z;
    SubstituteFirstMarkerStep(a, z, steps);
    var x := a + steps[0].text + b;
    RegroupMarker(a, steps[0].text, b, Placeholder("title"), v);
    BraceFreeJoin(a, steps[0].text, b);
    TitleCanonicalTail(x, c, d, steps[1..]);
  }

  /** The header, main, footer and aside steps on text whose markers are `{{title}}` and `{{canonicalUrl}}`. */
  lemma TitleCanonicalTail(x: string, c: string, d: string, rest: seq<Step>)
    requires BraceFree(x) && BraceFree(c) && BraceFree(d)
    requires |rest| == 4 && rest[0].name == "header" && rest[1].name == "main"
    requires rest[2].name == "footer" && rest[3].name == "aside"
    ensures SubstituteFirst((x + Placeholder("title")) + (c + Placeholder("canonicalUrl") + d), rest)
         == (x + Placeholder("title")) + (c + Placeholder("canonicalUrl") + d)
  {
    TitleCanonicalAbsent(x, c, d, "header");
    TitleCanonicalAbsent(x, c, d, "main");
    TitleCanonicalAbsent(x, c, d, "footer");
    TitleCanonicalAbsent(x, c, d, "aside");
    SkipFourAbsent((x + Placeholder("title")) + (c + Placeholder("canonicalUrl") + d), rest);
  }

  /** Four steps whose markers are all absent leave the text as it is. */
  lemma SkipFourAbsent(s: string, rest: seq<Step>)
    requires |rest| == 4
    requires Absent(s, Placeholder(rest[0].name)) && Absent(s, Placeholder(rest[1].name))
    requires Absent(s, Placeholder(rest[2].name)) && Absent(s, Placeholder(rest[3].name))
    ensures SubstituteFirst(s, rest) == s
  {
    SkipAbsentSteps(s, rest, 4);
    assert rest[4..] == [];
  }

  /** Text holding only a `{{title}}` and a `{{canonicalUrl}}` marker hides no other marker. */
  lemma TitleCanonicalAbsent(x: string, c: string, d: string, n: string)
    requires BraceFree(x) && BraceFree(c) && BraceFree(d) && PlainName(n) && n[0] != 't' && n[0] != 'c'
    ensures Absent((x + Placeholder("title")) + (c + Placeholder("canonicalUrl") + d), Placeholder(n))
  {
    OtherMarkerAbsent(x, "title", "", n);
    assert x + Placeholder("title") + "" == x + Placeholder("title");
    OtherMarkerAbsent(c, "canonicalUrl", d, n);
    AbsentJoin(x + Placeholder("title"), c + Placeholder("canonicalUrl") + d, n);
  }

  /** Only the first `{{main}}` is filled; a second one survives. */
  lemma OnlyFirstMainFilled(partials: Partials, main: string)
    requires StepsDollarFree(FiveSteps(partials, main)) && BraceFree(main)
    requires "base" in partials && partials["base"] == Placeholder("main") + Placeholder("main")
    ensures CreateFullPageFive(partials, main) == Ok(main + Placeholder("main"))
  {
    var steps := FiveSteps(partials, main);
    MainTwiceSteps(steps, main);
    assert CreateFullPageFive(partials, main) == Ok(SubstituteFirst(partials["base"], steps));
  }

  lemma MainTwiceSteps(steps: seq<Step>, main: string)
    requires |steps| == 5 && BraceFree(main)
    requires steps[0].name == "head" && steps[1].name == "header" && steps[2] == Step("main", main)
    requires steps[3].name == "footer" && steps[4].name == "aside"
    ensures SubstituteFirst(Placeholder("main") + Placeholder("main"), steps) == main + Placeholder("main")
  {
    var m := Placeholder("main");
    MainAbsentOther("head");
    AbsentJoin(m, m, "head");
    SkipAbsentStep(m + m, steps);
    MainAbsentOther("header");
    AbsentJoin(m, m, "header");
    SkipAbsentStep(m + m, steps[1..]);
    assert steps[1..][1..] == steps[2..];
    SubstituteFirstLeadingStep(m, steps[2..]);
    assert steps[2..][1..] == steps[3..];
    MainTailSteps(steps[3..], main);
  }

  /** The footer and aside steps leave text alone whose only marker is `{{main}}`. */
  lemma MainTailSteps(tail: seq<Step>, main: string)
    requires |tail| == 2 && BraceFree(main) && tail[0].name == "footer" && tail[1].name == "aside"
    ensures SubstituteFirst(main + Placeholder("main"), tail) == main + Placeholder("main")
  {
    var m := Placeholder("main");
    assert main + m + "" == main + m;
    OtherMarkerAbsent(main, "main", "", "footer");
    SkipAbsentStep(main + m, tail);
    OtherMarkerAbsent(main, "main", "", "aside");
    SkipAbsentStep(main + m, tail[1..]);
    assert tail[1..][1..] == [];
  }

  lemma MainAbsentOther(n: string)
    requires PlainName(n) && n[0] != 'm'
    ensures Absent(Placeholder("main"), Placeholder(n))
  {
    OtherMarkerAbsent("", "main", "", n);
    assert "" + Placeholder("main") + "" == Placeholder("main");
  }

  /** old/ssg.js `index.html`: the index partial wrapped in `base`. */
  function IndexPage(partials: Partials): (r: Result<string, Error>)
    requires StepsDollarFree(FiveSteps(partials, Raw(partials, "index")))
    ensures r.Ok? <==> "base" in partials
  {
    CreateFullPageFive(partials, Raw(partials, "index"))
  }

  /** A base without the five markers is `index.html` as it stands. */
  lemma IndexPageWithoutMarkers(partials: Partials)
    requires StepsDollarFree(FiveSteps(partials, Raw(partials, "index")))
    requires "base" in partials && NoMarkers(partials["base"], FiveSteps(partials, Raw(partials, "index")))
    ensures IndexPage(partials) == Ok(partials["base"])
  {
    FiveWithoutMarkersVerbatim(partials, Raw(partials, "index"));
  }

  /**
   * The index partial lands where `base` has its `{{main}}` marker; the
   * surrounding text is kept, whatever the other partials hold.
   */
  lemma IndexPageFillsMain(partials: Partials, a: string, b: string)
    requires StepsDollarFree(FiveSteps(partials, Raw(partials, "index")))
    requires "base" in partials && partials["base"] == a + Placeholder("main") + b
    requires BraceFree(a) && BraceFree(b) && BraceFree(Raw(partials, "index"))
    ensures IndexPage(partials) == Ok(a + Raw(partials, "index") + b)
  {
    var steps := FiveSteps(partials, Raw(partials, "index"));
    MainOnlySteps(steps, a, b);
    assert IndexPage(partials) == Ok(SubstituteFirst(partials["base"], steps));
  }

  /** The five steps of old/ssg.js on a base whose only marker is `{{main}}`. */
  lemma MainOnlySteps(steps: seq<Step>, a: string, b: string)
    requires |steps| == 5 && BraceFree(a) && BraceFree(b) && BraceFree(steps[2].text)
    requires steps[0].name == "head" && steps[1].name == "header" && steps[2].name == "main"
    requires steps[3].name == "footer" && steps[4].name == "aside"
    ensures SubstituteFirst(a + Placeholder("main") + b, steps) == a + steps[2].text + b
  {
    var s0 := a + Placeholder("main") + b;
    OtherMarkerAbsent(a, "main", b, "head");
    OtherMarkerAbsent(a, "main", b, "header");
    SkipAbsentSteps(s0, steps, 2);
    SubstituteFirstMarkerStep(a, b, steps[2..]);
    var s1 := a + steps[2].text + b;
    assert BraceFree(s1);
    BraceFreeHasNoMarker(s1, "footer");
    BraceFreeHasNoMarker(s1, "aside");
    SkipAbsentSteps(s1, steps[3..], 2);
    assert steps[2..][1..] == steps[3..];
    assert steps[3..][2..] == [];
  }

  /**
   * A partial written out as it is (`404.html`, and `index.html` in the later
   * generators); writing `undefined` is rejected by the file system layer.
   */
  function Verbatim(partials: Partials, name: string): (r: Result<string, Error>)
    ensures r.Ok? <==> name in partials
    ensures r.Ok? ==> r.value == partials[name]
  {
    if name in partials then Ok(partials[name])
    else Err(TypeError("The \"data\" argument must be of type string. Received undefined"))
  }

  /** One article of old/ssg.js: its file name and the assembled page. */
  datatype Article = Article(fileName: string, content: string)

  predicate ArticlesDollarFree(partials: Partials, articles: seq<Article>) {
    forall i :: 0 <= i < |articles| ==> StepsDollarFree(FiveSteps(partials, articles[i].content))
  }

  /**
   * Every article is wrapped in `base` and written under its own file name;
   * the first failure (a missing base) fails the build.
   */
  function ProcessArticles(partials: Partials, articles: seq<Article>): (r: Result<seq<Article>, Error>)
    requires ArticlesDollarFree(partials, articles)
    ensures r.Ok? <==> ("base" in partials || |articles| == 0)
    ensures r.Ok? ==> |r.value| == |articles|
    ensures r.Ok? ==> forall i :: 0 <= i < |articles| ==>
      r.value[i].fileName == articles[i].fileName
      && Ok(r.value[i].content) == CreateFullPageFive(partials, articles[i].content)
    decreases |articles|
  {
    if |articles| == 0 then Ok([])
    else
      match CreateFullPageFive(partials, articles[0].content)
      case Err(e) => Err(e)
      case Ok(page) =>
        match ProcessArticles(partials, articles[1..])
        case Err(e) => Err(e)
        case Ok(rest) => Ok([Article(articles[0].fileName, page)] + rest)
  }
}
