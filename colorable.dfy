/**
 The `v-color` directive: it paints an element's background, text or border
 either with a literal CSS colour (written into the inline style) or with a
 palette token such as `"red lighten-2"` (turned into class names that the
 theme's stylesheet defines).

 The host element is reduced to what the directive touches: a map from
 style property names to values and a set of class names.
 */
module Colorable {
  import opened JsString

  datatype Option<T> = None | Some(value: T)

  /** The directive's value, typed `string | false | undefined`. */
  datatype ColorValue = Undefined | False | Str(s: string)

  /** JavaScript truthiness of a colour value. */
  predicate Truthy(color: ColorValue) {
    color.Str? && color.s != ""
  }

  /** The six prefixes that mark a literal CSS colour. */
  const CssColorPrefixes: seq<string> := ["#", "var(--", "rgb(", "rgba(", "hsl(", "hsla("]

  /** The pattern `^(#|var\(--|(rgb|hsl)a?\()`, read alternative by alternative. */
  predicate MatchesCssColorPattern(s: string) {
    || "#" <= s
    || "var(--" <= s
    || (("rgb" <= s || "hsl" <= s) && ("(" <= s[3..] || "a(" <= s[3..]))
  }

  /** A literal CSS colour is a non-empty string that starts with one of the
      six prefixes; `undefined`, `false` and `""` never are. */
  function IsCssColor(color: ColorValue): (r: bool)
    ensures r <==> color.Str? && exists p :: p in CssColorPrefixes && p <= color.s
    ensures r ==> Truthy(color)
  {
    if Truthy(color) then
      PatternIsPrefixes(color.s);
      MatchesCssColorPattern(color.s)
    else
      false
  }

  /** The pattern accepts exactly the strings with one of the six prefixes. */
  lemma PatternIsPrefixes(s: string)
    ensures MatchesCssColorPattern(s) <==> exists p :: p in CssColorPrefixes && p <= s
  {
    if "#" <= s || "var(--" <= s {
      assert CssColorPrefixes[0] in CssColorPrefixes && CssColorPrefixes[1] in CssColorPrefixes;
    } else if MatchesCssColorPattern(s) {
      // `rgb` or `hsl`, then `(` or `a(`: one of the last four prefixes
      if "(" <= s[3..] {
        assert s[..4] == s[..3] + [s[3]] && s[3] == '(';
        if "rgb" <= s {
          assert s[..4] == "rgb(";
          assert CssColorPrefixes[2] in CssColorPrefixes && CssColorPrefixes[2] <= s;
        } else {
          assert s[..4] == "hsl(";
          assert CssColorPrefixes[4] in CssColorPrefixes && CssColorPrefixes[4] <= s;
        }
      } else {
        assert s[..5] == s[..3] + [s[3], s[4]] && s[3] == 'a' && s[4] == '(';
        if "rgb" <= s {
          assert s[..5] == "rgba(";
          assert CssColorPrefixes[3] in CssColorPrefixes && CssColorPrefixes[3] <= s;
        } else {
          assert s[..5] == "hsla(";
          assert CssColorPrefixes[5] in CssColorPrefixes && CssColorPrefixes[5] <= s;
        }
      }
    }
    if exists p :: p in CssColorPrefixes && p <= s {
      var p :| p in CssColorPrefixes && p <= s;
      if p != "#" && p != "var(--" {
        var family, paren := p[..3], p[3..];
        assert s[..3] == family && family <= s;
        assert s[3..][..|paren|] == paren && paren <= s[3..];
        assert family == "rgb" || family == "hsl";
        assert paren == "(" || paren == "a(";
      }
      assert MatchesCssColorPattern(s);
    }
  }

  /** A palette token: a colour name and an optional modifier. */
  datatype Token = Token(name: string, modifier: Option<string>)

  /** `const [name, modifier] = color.trim().split(' ', 2)`: the first two
      pieces of the trimmed value split on single spaces. */
  function ParseToken(color: string): (t: Token)
    ensures ' ' !in t.name && t.name <= Trim(color)
    ensures t.modifier.Some? ==> ' ' !in t.modifier.value && ' ' in Trim(color)
  {
    var pieces := Split(Trim(color));
    assert Trim(color) == pieces[0] || Trim(color) == pieces[0] + " " + Join(pieces[1..]);
    Token(pieces[0], if |pieces| >= 2 then Some(pieces[1]) else None)
  }

  /** A value without inner spaces is a bare colour name; surrounding
      whitespace is trimmed away. */
  lemma ParseTokenOneWord(lead: string, name: string, trail: string)
    requires AllWhitespace(lead) && AllWhitespace(trail)
    requires Trimmed(name) && ' ' !in name
    ensures ParseToken(lead + name + trail) == Token(name, None)
  {
    TrimCharacterization(lead, name, trail);
  }

  /** Splitting `name modifier...` on spaces yields `name` and `modifier`
      as its first two pieces when neither holds a space and `rest` is empty
      or starts at the next space. */
  lemma SplitFirstTwo(name: string, modifier: string, rest: string)
    requires ' ' !in name && ' ' !in modifier
    requires rest == [] || rest[0] == ' '
    ensures var pieces := Split(name + " " + modifier + rest);
      |pieces| >= 2 && pieces[0] == name && pieces[1] == modifier
  {
    var core := name + " " + modifier + rest;
    if rest == [] {
      JoinCons(name, [modifier]);
      SplitJoin([name, modifier]);
      assert [name] + [modifier] == [name, modifier];
    } else {
      var more := Split(rest[1..]);
      JoinCons(modifier, more);
      JoinCons(name, [modifier] + more);
      assert rest == " " + rest[1..];
      assert core == name + " " + (modifier + " " + rest[1..]);
      var pieces := [name] + ([modifier] + more);
      assert Join(pieces) == core;
      SplitJoin(pieces);
    }
  }

  /** The name is the text before the first space and the modifier the text
      between the first and the second; whatever follows (`rest`, empty or
      starting at the second space) is ignored, and so is whitespace around
      the value. */
  lemma ParseTokenFirstTwo(lead: string, name: string, modifier: string, rest: string, trail: string)
    requires AllWhitespace(lead) && AllWhitespace(trail)
    requires ' ' !in name && ' ' !in modifier
    requires rest == [] || rest[0] == ' '
    requires Trimmed(name + " " + modifier + rest)
    ensures ParseToken(lead + (name + " " + modifier + rest) + trail) == Token(name, Some(modifier))
  {
    TrimCharacterization(lead, name + " " + modifier + rest, trail);
    SplitFirstTwo(name, modifier, rest);
  }

  /** The classes a token contributes on a channel (`text` or `border`):
      always `<name>--<channel>`, and `<channel>--<modifier>` exactly when
      the modifier is present and non-empty. */
  function ChannelClasses(channel: string, t: Token): (r: set<string>)
    ensures t.name + "--" + channel in r
    ensures t.modifier.Some? && t.modifier.value != "" ==> channel + "--" + t.modifier.value in r
    ensures forall c :: c in r ==>
      c == t.name + "--" + channel
      || (t.modifier.Some? && t.modifier.value != "" && c == channel + "--" + t.modifier.value)
  {
    {t.name + "--" + channel}
    + (match t.modifier
       case Some(m) => if m != "" then {channel + "--" + m} else {}
       case None => {})
  }

  /** The literal class names `setTextColor` and `setBorderColor` write
      are the ones `ChannelClasses` describes. */
  lemma ChannelClassesSpelled(t: Token)
    ensures ChannelClasses("text", t) == {t.name + "--text"}
      + (if t.modifier.Some? && t.modifier.value != "" then {"text--" + t.modifier.value} else {})
    ensures ChannelClasses("border", t) == {t.name + "--border"}
      + (if t.modifier.Some? && t.modifier.value != "" then {"border--" + t.modifier.value} else {})
  {
    assert t.name + "--" + "text" == t.name + "--text";
    assert t.name + "--" + "border" == t.name + "--border";
    if t.modifier.Some? {
      assert "text" + "--" + t.modifier.value == "text--" + t.modifier.value;
      assert "border" + "--" + t.modifier.value == "border--" + t.modifier.value;
    }
  }

  /** A token `"name modifier ..."` on a channel yields exactly the two
      classes `name--channel` and `channel--modifier`. */
  lemma TokenClasses(channel: string, name: string, modifier: string, rest: string)
    requires ' ' !in name && ' ' !in modifier && modifier != ""
    requires rest == [] || rest[0] == ' '
    requires Trimmed(name + " " + modifier + rest)
    ensures ChannelClasses(channel, ParseToken(name + " " + modifier + rest))
         == {name + "--" + channel, channel + "--" + modifier}
  {
    var core := name + " " + modifier + rest;
    TrimCharacterization([], core, []);
    assert [] + core + [] == core;
    SplitFirstTwo(name, modifier, rest);
  }

  // Style property names, as `CSSStyleDeclaration` spells them.
  const BackgroundColor := "backgroundColor"
  const BorderColor := "borderColor"
  const TextColor := "color"
  const CaretColor := "caretColor"

  /** What the directive can see of an element. */
  datatype ElementState = ElementState(style: map<string, string>, classes: set<string>)

  /** The effect of `setBackgroundColor`. */
  function WithBackgroundColor(e: ElementState, color: ColorValue): (r: ElementState)
    ensures IsCssColor(color) ==>
      && r.classes == e.classes
      && r.style.Keys == e.style.Keys + {BackgroundColor, BorderColor}
      && r.style[BackgroundColor] == color.s && r.style[BorderColor] == color.s
      && forall p :: p in e.style && p != BackgroundColor && p != BorderColor ==> r.style[p] == e.style[p]
    ensures !IsCssColor(color) && Truthy(color) ==> r.style == e.style && r.classes == e.classes + {color.s}
    ensures !Truthy(color) ==> r == e
  {
    if IsCssColor(color) then
      e.(style := e.style[BackgroundColor := color.s][BorderColor := color.s])
    else if Truthy(color) then
      e.(classes := e.classes + {color.s})
    else
      e
  }

  /** The effect of `setTextColor`. */
  function WithTextColor(e: ElementState, color: ColorValue): (r: ElementState)
    ensures IsCssColor(color) ==>
      && r.classes == e.classes
      && r.style.Keys == e.style.Keys + {TextColor, CaretColor}
      && r.style[TextColor] == color.s && r.style[CaretColor] == color.s
      && forall p :: p in e.style && p != TextColor && p != CaretColor ==> r.style[p] == e.style[p]
    ensures !IsCssColor(color) && Truthy(color) ==>
      r.style == e.style && r.classes == e.classes + ChannelClasses("text", ParseToken(color.s))
    ensures !Truthy(color) ==> r == e
  {
    if IsCssColor(color) then
      e.(style := e.style[TextColor := color.s][CaretColor := color.s])
    else if Truthy(color) then
      e.(classes := e.classes + ChannelClasses("text", ParseToken(color.s)))
    else
      e
  }

  /** The effect of `setBorderColor`. */
  function WithBorderColor(e: ElementState, color: ColorValue): (r: ElementState)
    ensures IsCssColor(color) ==>
      && r.classes == e.classes
      && r.style.Keys == e.style.Keys + {BorderColor}
      && r.style[BorderColor] == color.s
      && forall p :: p in e.style && p != BorderColor ==> r.style[p] == e.style[p]
    ensures !IsCssColor(color) && Truthy(color) ==>
      r.style == e.style && r.classes == e.classes + ChannelClasses("border", ParseToken(color.s))
    ensures !Truthy(color) ==> r == e
  {
    if IsCssColor(color) then
      e.(style := e.style[BorderColor := color.s])
    else if Truthy(color) then
      e.(classes := e.classes + ChannelClasses("border", ParseToken(color.s)))
    else
      e
  }

  /** The directive's binding: its argument (`v-color:text`), its current
      value and the value it had before. */
  datatype Binding = Binding(arg: Option<string>, value: ColorValue, oldValue: ColorValue)

  /** The effect of `updateColor`: the argument picks the channel. No channel
      ever removes a class or a style property, and an argument that names
      no channel changes nothing. */
  function WithColor(e: ElementState, b: Binding): (r: ElementState)
    ensures e.classes <= r.classes && e.style.Keys <= r.style.Keys
    ensures b.arg !in {Some("background"), Some("text"), Some("border")} ==> r == e
  {
    if b.arg == Some("background") then WithBackgroundColor(e, b.value)
    else if b.arg == Some("text") then WithTextColor(e, b.value)
    else if b.arg == Some("border") then WithBorderColor(e, b.value)
    else e
  }

  /** Painting twice with the same binding is the same as painting once, so
      skipping an update whose value did not change loses nothing. */
  lemma WithColorIdempotent(e: ElementState, b: Binding)
    ensures WithColor(WithColor(e, b), b) == WithColor(e, b)
  {
  }

  /** The host element: inline style and class list, updated in place. */
  class Element {
    var style: map<string, string>
    var classes: set<string>

    constructor (style: map<string, string>, classes: set<string>)
      ensures this.style == style && this.classes == classes
    {
      this.style := style;
      this.classes := classes;
    }

    function State(): ElementState
      reads this
    {
      ElementState(style, classes)
    }

    /** `el.style[property] = value`. */
    method SetStyle(property: string, value: string)
      modifies this
      ensures style == old(style)[property := value] && classes == old(classes)
    {
      style := style[property := value];
    }

    /** `el.classList.add(token)`. */
    method AddClass(token: string)
      modifies this
      ensures classes == old(classes) + {token} && style == old(style)
    {
      classes := classes + {token};
    }
  }

  method SetBackgroundColor(el: Element, color: ColorValue)
    modifies el
    ensures el.State() == WithBackgroundColor(old(el.State()), color)
  {
    if IsCssColor(color) {
      el.SetStyle(BackgroundColor, color.s);
      el.SetStyle(BorderColor, color.s);
    } else if Truthy(color) {
      el.AddClass(color.s);
    }
  }

  method SetTextColor(el: Element, color: ColorValue)
    modifies el
    ensures el.State() == WithTextColor(old(el.State()), color)
  {
    if IsCssColor(color) {
      el.SetStyle(TextColor, color.s);
      el.SetStyle(CaretColor, color.s);
    } else if Truthy(color) {
      var t := ParseToken(color.s);
      ChannelClassesSpelled(t);
      el.AddClass(t.name + "--text");
      if t.modifier.Some? && t.modifier.value != "" {
        el.AddClass("text--" + t.modifier.value);
      }
    }
  }

  method SetBorderColor(el: Element, color: ColorValue)
    modifies el
    ensures el.State() == WithBorderColor(old(el.State()), color)
  {
    if IsCssColor(color) {
      el.SetStyle(BorderColor, color.s);
    } else if Truthy(color) {
      var t := ParseToken(color.s);
      ChannelClassesSpelled(t);
      el.AddClass(t.name + "--border");
      if t.modifier.Some? && t.modifier.value != "" {
        el.AddClass("border--" + t.modifier.value);
      }
    }
  }

  method UpdateColor(el: Element, b: Binding)
    modifies el
    ensures el.State() == WithColor(old(el.State()), b)
  {
    if b.arg == Some("background") {
      SetBackgroundColor(el, b.value);
    } else if b.arg == Some("text") {
      SetTextColor(el, b.value);
    } else if b.arg == Some("border") {
      SetBorderColor(el, b.value);
    }
  }

  /** The directive's `update` hook: nothing happens while the value is
      unchanged; otherwise the new value is painted. */
  method Update(el: Element, b: Binding)
    modifies el
    ensures b.value == b.oldValue ==> el.style == old(el.style) && el.classes == old(el.classes)
    ensures b.value != b.oldValue ==> el.State() == WithColor(old(el.State()), b)
  {
    if b.value == b.oldValue {
      return;
    }
    UpdateColor(el, b);
  }
}
