/** The compression stages the adapter's constructor selects from its options
    (index.js:19-51). Each codec has one optional entry in the options record; an
    entry yields a stage when it is present and its `active` field is truthy, and
    the stages always come out in one fixed order, whatever the options say. */
module Plugins {
  import opened Wrappers

  /** The seven imagemin plugins the adapter knows, one per option key. */
  datatype Codec = Jpegtran | Mozjpeg | Pngquant | Optipng | Gifsicle | Giflossy | Webp

  /** One codec's option entry. `active` is the truthiness of the entry's `active`
      field; the remaining tool parameters are handed to the plugin untouched. */
  datatype StageConfig = StageConfig(active: bool, params: map<string, string>)

  /** The adapter options record: an absent key is `None`. */
  datatype Options = Options(
    jpegtran: Option<StageConfig>,
    mozjpeg: Option<StageConfig>,
    pngquant: Option<StageConfig>,
    imageminOptipng: Option<StageConfig>,
    gifsicle: Option<StageConfig>,
    giflossy: Option<StageConfig>,
    webp: Option<StageConfig>)

  /** A constructed plugin: the codec and the option entry it was built from. */
  datatype Plugin = Plugin(codec: Codec, config: StageConfig)

  /** The order in which the constructor tests the option keys. */
  const Canonical: seq<Codec> := [Jpegtran, Mozjpeg, Pngquant, Optipng, Gifsicle, Giflossy, Webp]

  /** Position of a codec in the constructor's order. */
  function Rank(c: Codec): nat
  {
    match c
    case Jpegtran => 0
    case Mozjpeg => 1
    case Pngquant => 2
    case Optipng => 3
    case Gifsicle => 4
    case Giflossy => 5
    case Webp => 6
  }

  /** The option entry read for a codec. */
  function Entry(o: Options, c: Codec): Option<StageConfig>
  {
    match c
    case Jpegtran => o.jpegtran
    case Mozjpeg => o.mozjpeg
    case Pngquant => o.pngquant
    case Optipng => o.imageminOptipng
    case Gifsicle => o.gifsicle
    case Giflossy => o.giflossy
    case Webp => o.webp
  }

  /** `adapter.<key> && adapter.<key>.active` */
  predicate IsActive(o: Options, c: Codec)
  {
    Entry(o, c).Some? && Entry(o, c).value.active
  }

  /** Every codec comes strictly after the ones before it in the constructor's order
      (so in particular no codec occurs twice). */
  ghost predicate StrictlyRanked(cs: seq<Codec>)
  {
    forall i, j :: 0 <= i < j < |cs| ==> Rank(cs[i]) < Rank(cs[j])
  }

  function CodecsOf(ps: seq<Plugin>): (cs: seq<Codec>)
    ensures |cs| == |ps|
    ensures forall i :: 0 <= i < |ps| ==> cs[i] == ps[i].codec
  {
    seq(|ps|, i requires 0 <= i < |ps| => ps[i].codec)
  }

  /** Keep, in order, the codecs of `cs` whose entry is active, each paired with
      its own entry: the seven test-and-push blocks of the constructor, run over
      `Canonical`. */
  function Select(cs: seq<Codec>, o: Options): (ps: seq<Plugin>)
    ensures |ps| <= |cs|
  {
    if cs == [] then []
    else
      var rest := Select(cs[1..], o);
      if IsActive(o, cs[0]) then [Plugin(cs[0], Entry(o, cs[0]).value)] + rest else rest
  }

  /** Selection keeps exactly the active codecs of `cs`, each with its own entry,
      and never reorders them. */
  lemma {:induction false} SelectSound(cs: seq<Codec>, o: Options)
    ensures var ps := Select(cs, o);
      && (forall i :: 0 <= i < |ps| ==>
            IsActive(o, ps[i].codec) && Entry(o, ps[i].codec) == Some(ps[i].config))
      && (forall c :: c in CodecsOf(ps) <==> c in cs && IsActive(o, c))
      && (StrictlyRanked(cs) ==> StrictlyRanked(CodecsOf(ps)))
  {
    if cs != [] {
      SelectSound(cs[1..], o);
      var rest := Select(cs[1..], o);
      if IsActive(o, cs[0]) {
        var ps := [Plugin(cs[0], Entry(o, cs[0]).value)] + rest;
        assert CodecsOf(ps) == [cs[0]] + CodecsOf(rest);
        assert forall c :: c in cs <==> c == cs[0] || c in cs[1..];
      } else {
        assert forall c :: c in cs && c != cs[0] ==> c in cs[1..];
      }
    }
  }

  /** The constructor's plugin list: a missing options record behaves as `{}`. */
  function BuildPlugins(options: Option<Options>): (ps: seq<Plugin>)
    ensures options.None? ==> ps == []
    ensures forall i :: 0 <= i < |ps| ==>
      options.Some? && IsActive(options.value, ps[i].codec)
      && Entry(options.value, ps[i].codec) == Some(ps[i].config)
    ensures forall c :: c in CodecsOf(ps) <==> options.Some? && IsActive(options.value, c)
    ensures StrictlyRanked(CodecsOf(ps))
  {
    match options
    case None => []
    case Some(o) => SelectSound(Canonical, o); Select(Canonical, o)
  }

  /** When every codec of `cs` is active, selection keeps them all, in order. */
  lemma {:induction false} SelectAllActive(cs: seq<Codec>, o: Options)
    requires forall c :: c in cs ==> IsActive(o, c)
    ensures CodecsOf(Select(cs, o)) == cs
  {
    if cs != [] {
      assert forall c :: c in cs[1..] ==> c in cs;
      SelectAllActive(cs[1..], o);
      var rest := Select(cs[1..], o);
      assert IsActive(o, cs[0]);
      var ps := [Plugin(cs[0], Entry(o, cs[0]).value)] + rest;
      assert Select(cs, o) == ps;
      assert CodecsOf(ps) == [cs[0]] + CodecsOf(rest);
      assert [cs[0]] + cs[1..] == cs;
    }
  }

  /** With all seven entries active the plugins run in the constructor's order. */
  lemma AllActiveGivesCanonicalOrder(o: Options)
    requires forall c :: IsActive(o, c)
    ensures CodecsOf(BuildPlugins(Some(o))) == Canonical
    ensures |BuildPlugins(Some(o))| == 7
  {
    SelectAllActive(Canonical, o);
  }

  /** An inactive or absent entry is skipped: with jpegtran and webp active and
      mozjpeg inactive, the list is jpegtran then webp. */
  lemma SelectionExample(j: StageConfig, w: StageConfig, m: StageConfig)
    requires j.active && w.active && !m.active
    ensures BuildPlugins(Some(Options(Some(j), Some(m), None, None, None, None, Some(w))))
         == [Plugin(Jpegtran, j), Plugin(Webp, w)]
  {
    var o := Options(Some(j), Some(m), None, None, None, None, Some(w));
    assert Select([], o) == [];
    assert Select([Webp], o) == [Plugin(Webp, w)];
    assert Select([Giflossy, Webp], o) == [Plugin(Webp, w)];
    assert Select([Gifsicle, Giflossy, Webp], o) == [Plugin(Webp, w)];
    assert Select([Optipng, Gifsicle, Giflossy, Webp], o) == [Plugin(Webp, w)];
    assert Select([Pngquant, Optipng, Gifsicle, Giflossy, Webp], o) == [Plugin(Webp, w)];
    assert Select([Mozjpeg, Pngquant, Optipng, Gifsicle, Giflossy, Webp], o) == [Plugin(Webp, w)];
  }
}
