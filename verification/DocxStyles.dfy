/** Style inheritance of DOCX runs (`_resolved_style_properties`, `_effective_style`): each property
    comes from its nearest definer, and the one failure is a cycle. */
module DocxStyles {
  import opened Wrappers

  /** A value of a run property. Colours are the three bytes left once their notation is normalised. */
  datatype Value = Nothing | Flag(on: bool) | Text(text: string) | Colour(red: nat, green: nat, blue: nat) | Points(points: real)

  type Properties = map<string, Value>

  datatype StyleDefinition = StyleDefinition(basedOn: Option<string>, properties: Properties)

  datatype Catalog = Catalog(
    defaults: Properties,
    definitions: map<string, StyleDefinition>,
    defaultParagraphStyle: Option<string>,
    defaultCharacterStyle: Option<string>)

  datatype Failure = MalformedDocument

  // ---------------------------------------------------------------- the resolver

  predicate IsNamed(ref: Option<string>) { ref.Some? && ref.value != "" }

  function Resolve(ref: Option<string>, catalog: Catalog, visiting: set<string>): Result<Properties, Failure>
    decreases catalog.definitions.Keys - visiting
  {
    if !IsNamed(ref) then Ok(map[])
    else if ref.value in visiting then Err(MalformedDocument)
    else if ref.value !in catalog.definitions then Ok(map[])
    else
      var definition := catalog.definitions[ref.value];
      var inherited := Resolve(definition.basedOn, catalog, visiting + {ref.value});
      if inherited.Err? then inherited else Ok(inherited.value + definition.properties)
  }

  // ---------------------------------------------------------------- the chain it walks

  /** The style a reference leads to. */
  function Known(catalog: Catalog, ref: Option<string>): (style: Option<string>)
    ensures style.Some? ==> style.value in catalog.definitions
  {
    if IsNamed(ref) && ref.value in catalog.definitions then ref else None
  }

  /** The style `n` steps of `basedOn` away. */
  function At(catalog: Catalog, ref: Option<string>, n: nat): (style: Option<string>)
    ensures style.Some? ==> style.value in catalog.definitions
  {
    if n == 0 then Known(catalog, ref)
    else
      var before := At(catalog, ref, n - 1);
      if before.None? then None else Known(catalog, catalog.definitions[before.value].basedOn)
  }

  ghost predicate Repeats(catalog: Catalog, ref: Option<string>, i: nat, j: nat) {
    i < j && At(catalog, ref, j).Some? && At(catalog, ref, i) == At(catalog, ref, j)
  }

  ghost predicate IsCyclic(catalog: Catalog, ref: Option<string>) {
    exists i: nat, j: nat :: Repeats(catalog, ref, i, j)
  }

  predicate Defines(catalog: Catalog, ref: Option<string>, n: nat, name: string) {
    At(catalog, ref, n).Some? && name in catalog.definitions[At(catalog, ref, n).value].properties
  }

  function DefinedAt(catalog: Catalog, ref: Option<string>, n: nat, name: string): Value
    requires Defines(catalog, ref, n, name)
  {
    catalog.definitions[At(catalog, ref, n).value].properties[name]
  }

  /** The `n`th style of the chain is the first one to define the property. */
  ghost predicate IsNearest(catalog: Catalog, ref: Option<string>, n: nat, name: string) {
    Defines(catalog, ref, n, name) && forall i: nat | i < n :: !Defines(catalog, ref, i, name)
  }

  lemma {:induction false} OneStepOn(catalog: Catalog, ref: Option<string>, n: nat)
    requires Known(catalog, ref).Some?
    ensures At(catalog, ref, n + 1) == At(catalog, catalog.definitions[ref.value].basedOn, n)
  {
    if n > 0 { OneStepOn(catalog, ref, n - 1); }
  }

  /** A chain that has ended stays ended. */
  lemma {:induction false} EndedStaysEnded(catalog: Catalog, ref: Option<string>, n: nat, m: nat)
    requires n <= m && At(catalog, ref, n).None?
    ensures At(catalog, ref, m).None?
  {
    if n < m { EndedStaysEnded(catalog, ref, n, m - 1); }
  }

  // ---------------------------------------------------------------- failing exactly on cycles

  ghost predicate Meets(catalog: Catalog, ref: Option<string>, visiting: set<string>, j: nat) {
    At(catalog, ref, j).Some? && At(catalog, ref, j).value in visiting
  }

  lemma {:induction false} FailureHasWitness(ref: Option<string>, catalog: Catalog, visiting: set<string>)
    requires visiting <= catalog.definitions.Keys && Resolve(ref, catalog, visiting).Err?
    ensures (exists j: nat :: Meets(catalog, ref, visiting, j)) || IsCyclic(catalog, ref)
    decreases catalog.definitions.Keys - visiting
  {
    if ref.value in visiting {
      assert Meets(catalog, ref, visiting, 0);
    } else {
      var next, more := catalog.definitions[ref.value].basedOn, visiting + {ref.value};
      FailureHasWitness(next, catalog, more);
      if IsCyclic(catalog, next) {
        var i: nat, j: nat :| Repeats(catalog, next, i, j);
        OneStepOn(catalog, ref, i);
        OneStepOn(catalog, ref, j);
        assert Repeats(catalog, ref, i + 1, j + 1);
      } else {
        var j: nat :| Meets(catalog, next, more, j);
        OneStepOn(catalog, ref, j);
        if At(catalog, next, j).value in visiting {
          assert Meets(catalog, ref, visiting, j + 1);
        } else {
          assert Repeats(catalog, ref, 0, j + 1);
        }
      }
    }
  }

  lemma {:induction false} MeetingFails(ref: Option<string>, catalog: Catalog, visiting: set<string>, j: nat)
    requires visiting <= catalog.definitions.Keys && Meets(catalog, ref, visiting, j)
    ensures Resolve(ref, catalog, visiting).Err?
    decreases catalog.definitions.Keys - visiting
  {
    EarlierIsKnown(catalog, ref, j);
    if ref.value !in visiting {
      OneStepOn(catalog, ref, j - 1);
      MeetingFails(catalog.definitions[ref.value].basedOn, catalog, visiting + {ref.value}, j - 1);
    }
  }

  lemma EarlierIsKnown(catalog: Catalog, ref: Option<string>, j: nat)
    requires At(catalog, ref, j).Some?
    ensures Known(catalog, ref).Some?
  {
    if Known(catalog, ref).None? { EndedStaysEnded(catalog, ref, 0, j); }
  }

  lemma {:induction false} RepeatingFails(ref: Option<string>, catalog: Catalog, visiting: set<string>, i: nat, j: nat)
    requires visiting <= catalog.definitions.Keys && Repeats(catalog, ref, i, j)
    ensures Resolve(ref, catalog, visiting).Err?
    decreases catalog.definitions.Keys - visiting
  {
    EarlierIsKnown(catalog, ref, j);
    if ref.value !in visiting {
      var next, more := catalog.definitions[ref.value].basedOn, visiting + {ref.value};
      OneStepOn(catalog, ref, j - 1);
      if i == 0 {
        MeetingFails(next, catalog, more, j - 1);
      } else {
        OneStepOn(catalog, ref, i - 1);
        RepeatingFails(next, catalog, more, i - 1, j - 1);
      }
    }
  }

  /** Resolving fails exactly when the `basedOn` chain comes back to a style it has visited. */
  lemma FailsExactlyOnCycles(ref: Option<string>, catalog: Catalog)
    ensures Resolve(ref, catalog, {}).Err? <==> IsCyclic(catalog, ref)
  {
    if Resolve(ref, catalog, {}).Err? {
      FailureHasWitness(ref, catalog, {});
    }
    if IsCyclic(catalog, ref) {
      var i: nat, j: nat :| Repeats(catalog, ref, i, j);
      RepeatingFails(ref, catalog, {}, i, j);
    }
  }

  /** A resolved chain ends within as many steps as there are styles left to visit. */
  lemma {:induction false} ResolvedChainsEnd(ref: Option<string>, catalog: Catalog, visiting: set<string>)
    requires Resolve(ref, catalog, visiting).Ok?
    ensures At(catalog, ref, |catalog.definitions.Keys - visiting|).None?
    decreases catalog.definitions.Keys - visiting
  {
    var left := catalog.definitions.Keys - visiting;
    if Known(catalog, ref).None? {
      EndedStaysEnded(catalog, ref, 0, |left|);
    } else {
      ResolvedChainsEnd(catalog.definitions[ref.value].basedOn, catalog, visiting + {ref.value});
      assert catalog.definitions.Keys - (visiting + {ref.value}) == left - {ref.value};
      OneStepOn(catalog, ref, |left| - 1);
    }
  }

  // ---------------------------------------------------------------- the nearest definer wins

  lemma NearestMovesOn(catalog: Catalog, ref: Option<string>, n: nat, name: string)
    requires Known(catalog, ref).Some? && name !in catalog.definitions[ref.value].properties
    ensures IsNearest(catalog, ref, n + 1, name) <==> IsNearest(catalog, catalog.definitions[ref.value].basedOn, n, name)
    ensures !IsNearest(catalog, ref, 0, name)
  {
    var next := catalog.definitions[ref.value].basedOn;
    forall i: nat ensures Defines(catalog, ref, i + 1, name) == Defines(catalog, next, i, name) {
      OneStepOn(catalog, ref, i);
    }
    if IsNearest(catalog, ref, n + 1, name) {
      forall i: nat | i < n ensures !Defines(catalog, next, i, name) {
        assert !Defines(catalog, ref, i + 1, name);
      }
    }
    if IsNearest(catalog, next, n, name) {
      forall i: nat | i < n + 1 ensures !Defines(catalog, ref, i, name) {
        if i > 0 { assert !Defines(catalog, next, i - 1, name); }
      }
    }
  }

  lemma {:induction false} NearestDefinerWins(ref: Option<string>, catalog: Catalog, visiting: set<string>, name: string)
    requires Resolve(ref, catalog, visiting).Ok?
    ensures var resolved := Resolve(ref, catalog, visiting).value;
            && (name in resolved <==> exists n: nat :: IsNearest(catalog, ref, n, name))
            && forall n: nat | IsNearest(catalog, ref, n, name) ::
                 name in resolved && resolved[name] == DefinedAt(catalog, ref, n, name)
    decreases catalog.definitions.Keys - visiting
  {
    var resolved := Resolve(ref, catalog, visiting).value;
    if Known(catalog, ref).None? {
      forall n: nat ensures !IsNearest(catalog, ref, n, name) {
        EndedStaysEnded(catalog, ref, 0, n);
      }
    } else if name in catalog.definitions[ref.value].properties {
      assert IsNearest(catalog, ref, 0, name);
      assert Defines(catalog, ref, 0, name);
    } else {
      var next := catalog.definitions[ref.value].basedOn;
      NearestDefinerWins(next, catalog, visiting + {ref.value}, name);
      NearestMovesOn(catalog, ref, 0, name);
      forall n: nat | IsNearest(catalog, ref, n, name)
        ensures name in resolved && resolved[name] == DefinedAt(catalog, ref, n, name)
      {
        NearestMovesOn(catalog, ref, n - 1, name);
        OneStepOn(catalog, ref, n - 1);
        assert IsNearest(catalog, next, n - 1, name);
      }
      if name in resolved {
        var n: nat :| IsNearest(catalog, next, n, name);
        NearestMovesOn(catalog, ref, n, name);
        assert IsNearest(catalog, ref, n + 1, name);
      }
    }
  }

  // ---------------------------------------------------------------- layering

  function OrElse(ref: Option<string>, fallback: Option<string>): Option<string> {
    if IsNamed(ref) then ref else fallback
  }

  /** A property as a chain of styles gives it. */
  ghost predicate ChainGives(catalog: Catalog, ref: Option<string>, name: string, value: Option<Value>) {
    if value.Some? then exists n: nat :: IsNearest(catalog, ref, n, name) && DefinedAt(catalog, ref, n, name) == value.value
    else !exists n: nat :: IsNearest(catalog, ref, n, name)
  }

  /** A property of a run: its direct formatting, else its run style's chain, else its paragraph style's
      chain, else the document defaults. */
  ghost predicate Prevails(catalog: Catalog, paragraphStyle: Option<string>, runStyle: Option<string>, direct: Properties,
                           name: string, value: Option<Value>)
  {
    if name in direct then value == Some(direct[name])
    else if !ChainGives(catalog, runStyle, name, None) then ChainGives(catalog, runStyle, name, value)
    else if !ChainGives(catalog, paragraphStyle, name, None) then ChainGives(catalog, paragraphStyle, name, value)
    else value == Lookup(catalog.defaults, name)
  }

  function Lookup(properties: Properties, name: string): Option<Value> {
    if name in properties then Some(properties[name]) else None
  }

  function RunStyle(direct: Properties, catalog: Catalog): Option<string> {
    if "style_ref" in direct && direct["style_ref"].Text? then Some(direct["style_ref"].text) else catalog.defaultCharacterStyle
  }

  datatype TextStyle = TextStyle(colour: Option<Value>, size: Option<real>, hidden: bool, styleRef: Option<string>)

  predicate IsNearWhite(colour: Value) {
    colour.Colour? && colour.red >= 242 && colour.green >= 242 && colour.blue >= 242
  }

  function StyleOf(colour: Option<Value>, size: Option<Value>, highlight: Option<Value>, vanish: Option<Value>,
                   webHidden: Option<Value>, styleRef: Option<string>): TextStyle
  {
    var onBackground := highlight.Some? && highlight.value.Text? && highlight.value.text !in {"none", "white"};
    TextStyle(
      if colour.Some? && colour.value.Colour? then colour else None,
      if size.Some? && size.value.Points? then Some(size.value.points) else None,
      || vanish == Some(Flag(true)) || webHidden == Some(Flag(true))
      || (colour.Some? && IsNearWhite(colour.value) && !onBackground)
      || (size.Some? && size.value.Points? && size.value.points <= 1.0),
      styleRef)
  }

  /** The text is hidden by a switch, by being near white on no background of its own, or by a size of at most one
      point; and by nothing else. */
  lemma HiddenExactly(colour: Option<Value>, size: Option<Value>, highlight: Option<Value>, vanish: Option<Value>,
                      webHidden: Option<Value>, styleRef: Option<string>)
    ensures var style := StyleOf(colour, size, highlight, vanish, webHidden, styleRef);
            && (style.hidden <==>
                  || vanish == Some(Flag(true)) || webHidden == Some(Flag(true))
                  || (exists points: real :: points <= 1.0 && size == Some(Points(points)))
                  || ((exists red, green, blue :: 242 <= red && 242 <= green && 242 <= blue && colour == Some(Colour(red, green, blue)))
                      && !exists text :: text !in {"none", "white"} && highlight == Some(Text(text))))
            && (style.colour.Some? <==> exists red, green, blue :: colour == Some(Colour(red, green, blue)))
            && (style.colour.Some? ==> style.colour == colour)
            && (forall points :: style.size == Some(points) <==> size == Some(Points(points)))
            && style.styleRef == styleRef
  {
    if colour.Some? && colour.value.Colour? {
      assert colour == Some(Colour(colour.value.red, colour.value.green, colour.value.blue));
    }
    if size.Some? && size.value.Points? { assert size == Some(Points(size.value.points)); }
    if highlight.Some? && highlight.value.Text? { assert highlight == Some(Text(highlight.value.text)); }
  }

  /** A run has the style it names, and else the default one; a name that is empty names none. */
  lemma StyleChosen(direct: Properties, catalog: Catalog, ref: Option<string>, fallback: Option<string>)
    ensures forall name :: "style_ref" in direct && direct["style_ref"] == Text(name) ==> RunStyle(direct, catalog) == Some(name)
    ensures !("style_ref" in direct && direct["style_ref"].Text?) ==> RunStyle(direct, catalog) == catalog.defaultCharacterStyle
    ensures OrElse(ref, fallback) == if ref == None || ref == Some("") then fallback else ref
  {
  }

  /** `_effective_style`: the layers are laid one over the other. */
  method EffectiveStyle(direct: Properties, paragraphRef: Option<string>, catalog: Catalog) returns (style: Result<TextStyle, Failure>)
    ensures var paragraphStyle, runStyle := OrElse(paragraphRef, catalog.defaultParagraphStyle), RunStyle(direct, catalog);
            && (style.Err? <==> IsCyclic(catalog, paragraphStyle) || IsCyclic(catalog, runStyle))
            && (style.Ok? ==> exists colour, size, highlight, vanish, webHidden ::
                  && Prevails(catalog, paragraphStyle, runStyle, direct, "color", colour)
                  && Prevails(catalog, paragraphStyle, runStyle, direct, "size", size)
                  && Prevails(catalog, paragraphStyle, runStyle, direct, "highlight", highlight)
                  && Prevails(catalog, paragraphStyle, runStyle, direct, "vanish", vanish)
                  && Prevails(catalog, paragraphStyle, runStyle, direct, "webHidden", webHidden)
                  && style.value == StyleOf(colour, size, highlight, vanish, webHidden, OrElse(runStyle, paragraphStyle)))
  {
    var paragraphStyle := OrElse(paragraphRef, catalog.defaultParagraphStyle);
    var runStyle := RunStyle(direct, catalog);
    FailsExactlyOnCycles(paragraphStyle, catalog);
    FailsExactlyOnCycles(runStyle, catalog);
    var properties := catalog.defaults;
    var layer := Resolve(paragraphStyle, catalog, {});
    if layer.Err? {
      return Err(layer.error);
    }
    properties := properties + layer.value;
    layer := Resolve(runStyle, catalog, {});
    if layer.Err? {
      return Err(layer.error);
    }
    properties := properties + layer.value;
    properties := properties + direct;
    LayersPrevail(direct, paragraphStyle, runStyle, catalog, "color");
    LayersPrevail(direct, paragraphStyle, runStyle, catalog, "size");
    LayersPrevail(direct, paragraphStyle, runStyle, catalog, "highlight");
    LayersPrevail(direct, paragraphStyle, runStyle, catalog, "vanish");
    LayersPrevail(direct, paragraphStyle, runStyle, catalog, "webHidden");
    style := Ok(StyleOf(Lookup(properties, "color"), Lookup(properties, "size"), Lookup(properties, "highlight"),
                        Lookup(properties, "vanish"), Lookup(properties, "webHidden"), OrElse(runStyle, paragraphStyle)));
  }

  lemma ResolvedGives(ref: Option<string>, catalog: Catalog, name: string)
    requires Resolve(ref, catalog, {}).Ok?
    ensures ChainGives(catalog, ref, name, Lookup(Resolve(ref, catalog, {}).value, name))
    ensures ChainGives(catalog, ref, name, None) <==> name !in Resolve(ref, catalog, {}).value
  {
    NearestDefinerWins(ref, catalog, {}, name);
  }

  lemma LayersPrevail(direct: Properties, paragraphStyle: Option<string>, runStyle: Option<string>, catalog: Catalog, name: string)
    requires Resolve(paragraphStyle, catalog, {}).Ok? && Resolve(runStyle, catalog, {}).Ok?
    ensures var properties := catalog.defaults + Resolve(paragraphStyle, catalog, {}).value
                              + Resolve(runStyle, catalog, {}).value + direct;
            Prevails(catalog, paragraphStyle, runStyle, direct, name, Lookup(properties, name))
  {
    ResolvedGives(paragraphStyle, catalog, name);
    ResolvedGives(runStyle, catalog, name);
  }

  /** What prevails is one value. */
  lemma PrevailingIsUnique(catalog: Catalog, paragraphStyle: Option<string>, runStyle: Option<string>, direct: Properties,
                           name: string, a: Option<Value>, b: Option<Value>)
    requires Prevails(catalog, paragraphStyle, runStyle, direct, name, a)
    requires Prevails(catalog, paragraphStyle, runStyle, direct, name, b)
    ensures a == b
  {
    NearestIsUnique(catalog, paragraphStyle, name);
    NearestIsUnique(catalog, runStyle, name);
  }

  lemma NearestIsUnique(catalog: Catalog, ref: Option<string>, name: string)
    ensures forall n: nat, m: nat | IsNearest(catalog, ref, n, name) && IsNearest(catalog, ref, m, name) :: n == m
  {
  }
}
