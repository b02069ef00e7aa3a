/**
 * The shared `Button`: how its props, after destructuring with defaults,
 * become the class string and the attributes of the rendered `<button>`.
 * Props are the JavaScript values the component inspects; the caller's
 * other attributes pass through the rest spread, which is applied last.
 */
module Button {
  import opened JsText

  /** A prop's value, as far as the component looks at it. */
  datatype JsValue = Undefined | Null | Bool(b: bool) | Str(s: string)

  /** JavaScript truthiness. */
  predicate Truthy(v: JsValue) {
    (v.Bool? && v.b) || (v.Str? && v.s != "")
  }

  /** `a || b`. */
  function Or(a: JsValue, b: JsValue): (r: JsValue)
    ensures Truthy(r) <==> Truthy(a) || Truthy(b)
    ensures Truthy(a) ==> r == a
  {
    if Truthy(a) then a else b
  }

  /** What the caller passes, by prop name; a missing key reads as
      `undefined`. */
  type Props = map<string, JsValue>

  function Get(props: Props, key: string): JsValue {
    if key in props then props[key] else Undefined
  }

  /** A destructuring default: it replaces `undefined` only, not `null`. */
  function Default(props: Props, key: string, d: JsValue): (r: JsValue)
    ensures key !in props ==> r == d
    ensures key in props && props[key] != Undefined ==> r == props[key]
  {
    if Get(props, key) == Undefined then d else Get(props, key)
  }

  /** The props the signature names; everything else is `...props`. */
  const Named: set<string> :=
    {"children", "type", "variant", "size", "isLoading", "leadingIcon",
     "trailingIcon", "block", "bgColor", "textColor", "className"}

  /** The rest object of the destructuring. */
  function Rest(props: Props): (r: Props)
    ensures forall k :: k in r <==> k in props && k !in Named
    ensures forall k :: k in r ==> r[k] == props[k]
  {
    map k | k in props && k !in Named :: props[k]
  }

  const Base := "inline-flex items-center justify-center select-none rounded-md font-medium transition-colors "
              + "focus-visible:outline-none focus-visible:ring-2 disabled:opacity-50 disabled:cursor-not-allowed"

  const Sizes: map<string, string> := map[
    "sm" := "px-3 py-1.5 text-sm",
    "md" := "px-4 py-2 text-sm",
    "lg" := "px-5 py-2.5 text-base"]

  const Variants: map<string, string> := map[
    "primary" := "bg-indigo-600 text-white hover:bg-indigo-700 focus-visible:ring-indigo-400",
    "secondary" := "bg-white text-slate-700 border border-slate-200 hover:bg-slate-100 focus-visible:ring-indigo-400",
    "outline" := "bg-transparent text-slate-700 border border-slate-300 hover:bg-slate-50 focus-visible:ring-indigo-400",
    "ghost" := "bg-transparent text-slate-700 hover:bg-slate-100 focus-visible:ring-indigo-400",
    "destructive" := "bg-red-600 text-white hover:bg-red-700 focus-visible:ring-red-400"]

  /** The property key a value names when used to index an object. */
  function PropertyKey(v: JsValue): string {
    match v
    case Undefined => "undefined"
    case Null => "null"
    case Bool(b) => if b then "true" else "false"
    case Str(s) => s
  }

  /** `table[key] || table[fallback]`. */
  function Lookup(table: map<string, string>, key: JsValue, fallback: string): (r: string)
    requires fallback in table && table[fallback] != ""
    ensures r != ""
  {
    var k := PropertyKey(key);
    if k in table && table[k] != "" then table[k] else table[fallback]
  }

  /** `sizes[size] || sizes.md`, with `size` defaulting to "md". */
  function SizeClasses(props: Props): (r: string)
    ensures r != ""
  {
    Lookup(Sizes, Default(props, "size", Str("md")), "md")
  }

  /** `variants[variant] || variants.primary`, with `variant` defaulting to
      "primary". */
  function VariantClasses(props: Props): (r: string)
    ensures r != ""
  {
    Lookup(Variants, Default(props, "variant", Str("primary")), "primary")
  }

  /** An unknown or missing size gets the medium classes and an unknown or
      missing variant the primary ones; a known name gets its own. */
  lemma PresetFallback(props: Props)
    ensures var size := Get(props, "size");
      SizeClasses(props) ==
        if size.Str? && size.s in Sizes then Sizes[size.s] else Sizes["md"]
    ensures var variant := Get(props, "variant");
      VariantClasses(props) ==
        if variant.Str? && variant.s in Variants then Variants[variant.s] else Variants["primary"]
  {
  }

  /** The string a truthy value contributes to `join`. */
  function Text(v: JsValue): (r: string)
    requires Truthy(v)
    ensures r != ""
  {
    if v.Str? then v.s else "true"
  }

  /** What one array element contributes after `.filter(Boolean)`: its
      string when truthy, nothing otherwise. */
  function Optional(v: JsValue): (r: seq<string>)
    ensures Truthy(v) ==> r == [Text(v)]
    ensures !Truthy(v) <==> r == []
  {
    if Truthy(v) then [Text(v)] else []
  }

  /** `.filter(Boolean)` followed by the string conversion of `join`. */
  function Kept(vs: seq<JsValue>): seq<string> {
    if vs == [] then [] else Optional(vs[0]) + Kept(vs[1..])
  }

  /** A string is kept exactly when some element is truthy and converts to
      it. */
  lemma {:induction false} KeptMembers(vs: seq<JsValue>)
    ensures forall i :: 0 <= i < |vs| && Truthy(vs[i]) ==> Text(vs[i]) in Kept(vs)
    ensures forall x :: x in Kept(vs) ==> exists i :: 0 <= i < |vs| && Truthy(vs[i]) && Text(vs[i]) == x
  {
    if vs != [] {
      var tail := vs[1..];
      KeptMembers(tail);
      assert Kept(vs) == Optional(vs[0]) + Kept(tail);
      forall i | 0 <= i < |vs| && Truthy(vs[i]) ensures Text(vs[i]) in Kept(vs) {
        if i > 0 {
          assert vs[i] == tail[i - 1];
        }
      }
      forall x | x in Kept(vs) ensures exists i :: 0 <= i < |vs| && Truthy(vs[i]) && Text(vs[i]) == x {
        if x !in Optional(vs[0]) {
          var k :| 0 <= k < |tail| && Truthy(tail[k]) && Text(tail[k]) == x;
          assert vs[k + 1] == tail[k];
        }
      }
    }
  }

  /** `filter(Boolean)` leaves no empty string to join. */
  lemma {:induction false} KeptNonEmpty(vs: seq<JsValue>)
    ensures forall p :: p in Kept(vs) ==> p != ""
  {
    if vs != [] {
      KeptNonEmpty(vs[1..]);
    }
  }

  /** Filtering distributes over concatenation. */
  lemma {:induction false} KeptAppend(a: seq<JsValue>, b: seq<JsValue>)
    ensures Kept(a + b) == Kept(a) + Kept(b)
  {
    if a == [] {
      assert a + b == b;
    } else {
      assert (a + b)[1..] == a[1..] + b;
      KeptAppend(a[1..], b);
    }
  }

  /** Filtering a short array keeps each truthy element, in order. */
  lemma {:induction false} KeptShort(c: seq<JsValue>)
    requires 1 <= |c| <= 4
    ensures Kept(c) == Optional(c[0]) + Kept(c[1..])
    ensures |c| == 1 ==> Kept(c) == Optional(c[0])
  {
    if |c| == 1 {
      assert c[1..] == [];
    }
  }

  /** The fixed leading part of `cls`: the base, the size and the variant
      classes, never empty. */
  function Presets(base: string, size: string, variant: string): seq<JsValue> {
    [Str(base), Str(size), Str(variant)]
  }

  /** The optional trailing part: "w-full" or "" for `block`, the two
      colour overrides or "", and `className`. */
  function Extras(block: bool, bgColor: JsValue, textColor: JsValue, className: JsValue): seq<JsValue> {
    [ if block then Str("w-full") else Str(""),
      Or(bgColor, Str("")),
      Or(textColor, Str("")),
      className ]
  }

  /** The array `cls` is built from, in the order written. */
  function ClassArray(base: string, size: string, variant: string, block: bool,
                      bgColor: JsValue, textColor: JsValue, className: JsValue): seq<JsValue> {
    Presets(base, size, variant) + Extras(block, bgColor, textColor, className)
  }


  lemma KeptPresets(base: string, size: string, variant: string)
    requires base != "" && size != "" && variant != ""
    ensures Kept(Presets(base, size, variant)) == [base, size, variant]
  {
    var c := Presets(base, size, variant);
    KeptShort(c);
    KeptShort(c[1..]);
    assert c[1..][1..] == c[2..];
    KeptShort(c[2..]);
  }

  lemma KeptExtras(block: bool, bgColor: JsValue, textColor: JsValue, className: JsValue)
    ensures Kept(Extras(block, bgColor, textColor, className)) ==
      (if block then ["w-full"] else []) + (Optional(bgColor) + (Optional(textColor) + Optional(className)))
  {
    var c := Extras(block, bgColor, textColor, className);
    KeptShort(c);
    KeptShort(c[1..]);
    assert c[1..][1..] == c[2..];
    KeptShort(c[2..]);
    assert c[2..][1..] == c[3..];
    KeptShort(c[3..]);
  }

  /** The joined parts are, in this order: the base, the size and the
      variant classes, then "w-full" exactly when `block` holds, then the
      colour overrides and `className`, each only when truthy. */
  lemma ClassParts(base: string, size: string, variant: string, block: bool,
                   bgColor: JsValue, textColor: JsValue, className: JsValue)
    requires base != "" && size != "" && variant != ""
    ensures Kept(ClassArray(base, size, variant, block, bgColor, textColor, className)) ==
      [base, size, variant]
      + ((if block then ["w-full"] else [])
      + (Optional(bgColor) + (Optional(textColor) + Optional(className))))
  {
    KeptAppend(Presets(base, size, variant), Extras(block, bgColor, textColor, className));
    KeptPresets(base, size, variant);
    KeptExtras(block, bgColor, textColor, className);
  }

  /** `Join` puts exactly one separator between neighbours. */
  lemma {:induction false} JoinCons(p: string, rest: seq<string>, sep: string)
    requires rest != []
    ensures Join([p] + rest, sep) == p + sep + Join(rest, sep)
  {
    assert ([p] + rest)[1..] == rest;
  }

  /** Joining `[p] + rest` starts with `p`. */
  lemma JoinStart(p: string, rest: seq<string>, sep: string)
    ensures StartsWith(Join([p] + rest, sep), p)
  {
    if rest == [] {
      assert [p] + rest == [p];
    } else {
      JoinCons(p, rest, sep);
    }
  }

  /** Joining parts whose first three are `a`, `b` and `c` starts with
      those three and the separators between them. */
  lemma JoinThreeStart(a: string, b: string, c: string, parts: seq<string>, sep: string)
    requires |parts| >= 3 && parts[0] == a && parts[1] == b && parts[2] == c
    ensures StartsWith(Join(parts, sep), a + sep + b + sep + c)
  {
    var tail := parts[3..];
    assert parts == [a] + ([b] + ([c] + tail));
    JoinCons(a, [b] + ([c] + tail), sep);
    JoinCons(b, [c] + tail, sep);
    JoinStart(c, tail, sep);
    var j := Join([c] + tail, sep);
    assert j == c + j[|c|..];
    assert Join(parts, sep) == (a + sep + b + sep + c) + j[|c|..];
  }

  /** The class string always starts with the base, the size and the
      variant classes, separated by single spaces. */
  lemma ClassNameStart(base: string, size: string, variant: string, block: bool,
                       bgColor: JsValue, textColor: JsValue, className: JsValue)
    requires base != "" && size != "" && variant != ""
    ensures StartsWith(Join(Kept(ClassArray(base, size, variant, block, bgColor, textColor, className)), " "),
                       base + " " + size + " " + variant)
  {
    var parts := Kept(ClassArray(base, size, variant, block, bgColor, textColor, className));
    ClassParts(base, size, variant, block, bgColor, textColor, className);
    JoinThreeStart(base, size, variant, parts, " ");
  }

  /** `cls`: it always starts with the base, the size and the variant
      classes, separated by single spaces. */
  function ClassName(props: Props): (r: string)
    ensures StartsWith(r, Base + " " + SizeClasses(props) + " " + VariantClasses(props))
  {
    var block := Truthy(Default(props, "block", Bool(false)));
    var className := Default(props, "className", Str(""));
    ClassNameStart(Base, SizeClasses(props), VariantClasses(props), block,
                   Get(props, "bgColor"), Get(props, "textColor"), className);
    Join(Kept(ClassArray(Base, SizeClasses(props), VariantClasses(props), block,
                         Get(props, "bgColor"), Get(props, "textColor"), className)), " ")
  }

  /** The attributes of the `<button>` given its class string: those it
      sets itself come first, so a `disabled` or `aria-busy` the caller
      passes wins; `type` and `className` are destructured and cannot be
      overridden, and every other prop the caller passes is copied. */
  function Attributes(props: Props, cls: string): (attrs: map<string, JsValue>)
    ensures attrs.Keys == {"type", "className", "disabled", "aria-busy"} + Rest(props).Keys
    ensures "type" in attrs && "className" in attrs && "disabled" in attrs && "aria-busy" in attrs
    ensures attrs["type"] == Default(props, "type", Str("button"))
    ensures "type" !in props ==> attrs["type"] == Str("button")
    ensures attrs["className"] == Str(cls)
    ensures "disabled" !in props ==>
      (Truthy(attrs["disabled"]) <==> Truthy(Get(props, "isLoading")))
    ensures "disabled" in props ==> attrs["disabled"] == props["disabled"]
    ensures "aria-busy" !in props ==>
      attrs["aria-busy"] == if Truthy(Get(props, "isLoading")) then Str("true") else Undefined
    ensures "aria-busy" in props ==> attrs["aria-busy"] == props["aria-busy"]
    ensures forall k :: k in props && k !in Named ==> attrs[k] == props[k]
  {
    var isLoading := Default(props, "isLoading", Bool(false));
    var own := map[
      "type" := Default(props, "type", Str("button")),
      "className" := Str(cls),
      "disabled" := Or(isLoading, Get(props, "disabled")),
      "aria-busy" := if Truthy(isLoading) then Str("true") else Undefined];
    own + Rest(props)
  }

  /** The rendered `<button>`: its attributes, and whether the spinner is
      drawn inside it. */
  datatype Rendered = Rendered(attrs: map<string, JsValue>, spinner: bool)

  /** The element `Button` returns: the spinner is drawn exactly when
      `isLoading` is truthy, whatever else the caller passes. */
  function Render(props: Props): (r: Rendered)
    ensures r.spinner <==> Truthy(Get(props, "isLoading"))
    ensures "className" in r.attrs && r.attrs["className"] == Str(ClassName(props))
  {
    Rendered(Attributes(props, ClassName(props)), Truthy(Default(props, "isLoading", Bool(false))))
  }
}
