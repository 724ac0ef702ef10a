/** The client-logo strip (client/app/components/blocks/ClientLogos.tsx): the
    logos repeated three times on one scrolling track. */
module ClientLogos {
  import opened Wrappers
  import opened Json

  datatype ClientLogo = ClientLogo(id: int, url: string, alternativeText: Option<string>)

  datatype ClientLogosProps = ClientLogosProps(heading: Option<string>, logos: Option<seq<ClientLogo>>)

  /** One tile of the track: React key, image source and alt text. */
  datatype Tile = Tile(key: string, src: string, alt: string)

  datatype LogosView = LogosView(heading: Option<string>, track: seq<Tile>)

  /** Decimal digits of a natural number, as JavaScript prints it. */
  function NatToString(n: nat): (s: string)
    ensures |s| > 0
    ensures forall i :: 0 <= i < |s| ==> '0' <= s[i] <= '9'
  {
    if n < 10 then [DigitChar(n)] else NatToString(n / 10) + [DigitChar(n % 10)]
  }

  function DigitChar(d: nat): (c: char)
    requires d < 10
    ensures '0' <= c <= '9'
  {
    ['0', '1', '2', '3', '4', '5', '6', '7', '8', '9'][d]
  }

  /** An integer in a template literal; a negative one carries a leading `-`. */
  function IntToString(n: int): (s: string)
    ensures |s| > 0
    ensures s[0] == '-' <==> n < 0
    ensures forall i :: 0 < i < |s| ==> '0' <= s[i] <= '9'
    ensures n >= 0 ==> s == NatToString(n)
  {
    if n < 0 then "-" + NatToString(-n) else NatToString(n)
  }

  lemma NatToStringLong(n: nat)
    requires n >= 10
    ensures |NatToString(n)| >= 2
  {
  }

  /** Different numbers print differently. */
  lemma {:induction false} NatToStringInjective(m: nat, n: nat)
    requires NatToString(m) == NatToString(n)
    ensures m == n
  {
    if m >= 10 { NatToStringLong(m); }
    if n >= 10 { NatToStringLong(n); }
    if m >= 10 && n >= 10 {
      var s := NatToString(m);
      assert s[..|s| - 1] == NatToString(m / 10);
      assert NatToString(n)[..|s| - 1] == NatToString(n / 10);
      NatToStringInjective(m / 10, n / 10);
      assert DigitChar(m % 10) == s[|s| - 1] == DigitChar(n % 10);
    } else if m < 10 && n < 10 {
      assert DigitChar(m) == DigitChar(n);
    }
  }

  /** The key `${logo.id}-${index}`: the printed id, a dash, then the printed
      index, which holds no dash. */
  function TileKey(id: int, index: nat): (k: string)
    ensures var n := |NatToString(index)|;
      |k| == |IntToString(id)| + 1 + n &&
      k[..|IntToString(id)|] == IntToString(id) && k[|IntToString(id)|] == '-' &&
      k[|k| - n..] == NatToString(index)
    ensures forall i :: |IntToString(id)| < i < |k| ==> k[i] != '-'
  {
    IntToString(id) + "-" + NatToString(index)
  }

  /** The part after the last dash: when it is dash-free on both sides, two
      equal strings `a-x` and `b-y` have `x == y`. */
  lemma SameTailAfterLastDash(a: string, x: string, b: string, y: string)
    requires forall i :: 0 <= i < |x| ==> x[i] != '-'
    requires forall i :: 0 <= i < |y| ==> y[i] != '-'
    requires a + "-" + x == b + "-" + y
    ensures x == y
  {
    var s := a + "-" + x;
    assert s == b + "-" + y;
    forall i | |a| < i < |s| ensures s[i] != '-' {
      assert s[i] == x[i - |a| - 1];
    }
    forall i | |b| < i < |s| ensures s[i] != '-' {
      assert s[i] == (b + "-" + y)[i] == y[i - |b| - 1];
    }
    assert s[|a|] == '-';
    assert s[|b|] == '-';
    assert |a| == |b|;
    assert x == s[|a| + 1..];
    assert y == (b + "-" + y)[|b| + 1..];
  }

  /** Keys made at different positions differ, whatever the ids. */
  lemma TileKeysDistinct(id1: int, i: nat, id2: int, j: nat)
    requires i != j
    ensures TileKey(id1, i) != TileKey(id2, j)
  {
    if TileKey(id1, i) == TileKey(id2, j) {
      SameTailAfterLastDash(IntToString(id1), NatToString(i), IntToString(id2), NatToString(j));
      NatToStringInjective(i, j);
    }
  }

  /** `[...logos, ...logos, ...logos]`. */
  function Tripled(logos: seq<ClientLogo>): (t: seq<ClientLogo>)
    ensures |t| == 3 * |logos|
    ensures forall i :: 0 <= i < |t| ==> t[i] == logos[i % |logos|]
  {
    var t := logos + logos + logos;
    assert forall i :: 0 <= i < |t| ==> t[i] == logos[i % |logos|] by {
      forall i | 0 <= i < |t| ensures t[i] == logos[i % |logos|] {
        if i < |logos| {
        } else if i < 2 * |logos| {
          assert i % |logos| == i - |logos|;
        } else {
          assert i % |logos| == i - 2 * |logos|;
        }
      }
    }
    t
  }

  function TileOf(logo: ClientLogo, index: nat, media: string -> string): (t: Tile)
    ensures t.key == TileKey(logo.id, index)
    ensures t.src == media(logo.url)
    ensures NonEmpty(logo.alternativeText) ==> t.alt == logo.alternativeText.value
    ensures !NonEmpty(logo.alternativeText) ==> t.alt == "Client logo"
  {
    Tile(TileKey(logo.id, index), media(logo.url), StrOr(logo.alternativeText, "Client logo"))
  }

  /** The rendered block, `None` when it renders nothing. */
  function RenderClientLogos(p: ClientLogosProps, media: string -> string): (v: Option<LogosView>)
    ensures v.None? <==> p.logos.None? || p.logos.value == []
    ensures v.Some? ==> v.value.heading == WhenNonEmpty(p.heading)
    ensures v.Some? ==> var logos := p.logos.value;
      |v.value.track| == 3 * |logos| &&
      forall i :: 0 <= i < |v.value.track| ==> v.value.track[i] == TileOf(logos[i % |logos|], i, media)
  {
    var logos := p.logos.GetOr([]);
    if |logos| == 0 then None
    else
      var t := Tripled(logos);
      Some(LogosView(WhenNonEmpty(p.heading), seq(|t|, i requires 0 <= i < |t| => TileOf(t[i], i, media))))
  }

  /** The track's keys are pairwise distinct, even when logo ids repeat (as
      they do three times on the track). */
  lemma TrackKeysUnique(p: ClientLogosProps, media: string -> string)
    requires RenderClientLogos(p, media).Some?
    ensures var track := RenderClientLogos(p, media).value.track;
      forall i, j :: 0 <= i < j < |track| ==> track[i].key != track[j].key
  {
    var track := RenderClientLogos(p, media).value.track;
    var logos := p.logos.value;
    forall i, j | 0 <= i < j < |track| ensures track[i].key != track[j].key {
      TileKeysDistinct(logos[i % |logos|].id, i, logos[j % |logos|].id, j);
    }
  }
}
