/** The statistics block (client/app/components/blocks/Stats.tsx). */
module Stats {
  import opened Wrappers
  import opened Json

  datatype Stat = Stat(id: int, number: string, caption: string)

  datatype StatsProps = StatsProps(
    heading: string, text: Option<string>, buttonText: Option<string>, buttonLink: Option<string>,
    stats: Option<seq<Stat>>)

  /** One grid cell: the figure above its label. */
  datatype StatCell = StatCell(key: int, lines: seq<string>)

  datatype CtaLink = CtaLink(to: string, caption: string)

  /** The rendered block: heading, then the optional paragraph, grid and link. */
  datatype StatsView = StatsView(heading: string, text: Option<string>, grid: Option<seq<StatCell>>, cta: Option<CtaLink>)

  function StatCellOf(s: Stat): (c: StatCell)
    ensures c.key == s.id && c.lines == [s.number, s.caption]
  {
    StatCell(s.id, [s.number, s.caption])
  }

  function RenderStats(p: StatsProps): (v: StatsView)
    ensures v.heading == p.heading
    ensures v.text.Some? <==> NonEmpty(p.text)
    ensures v.text.Some? ==> v.text == p.text
    ensures v.grid.Some? <==> p.stats.Some? && |p.stats.value| > 0
    ensures v.grid.Some? ==> (|v.grid.value| == |p.stats.value| &&
      forall i :: 0 <= i < |p.stats.value| ==> v.grid.value[i] == StatCellOf(p.stats.value[i]))
    ensures v.cta.Some? <==> NonEmpty(p.buttonText) && NonEmpty(p.buttonLink)
    ensures v.cta.Some? ==> v.cta.value == CtaLink(p.buttonLink.value, p.buttonText.value)
  {
    var stats := p.stats.GetOr([]);
    StatsView(
      p.heading,
      WhenNonEmpty(p.text),
      if |stats| > 0 then Some(seq(|stats|, i requires 0 <= i < |stats| => StatCellOf(stats[i]))) else None,
      if NonEmpty(p.buttonText) && NonEmpty(p.buttonLink) then Some(CtaLink(p.buttonLink.value, p.buttonText.value))
      else None)
  }

  /** The grid lists every figure in input order: reading the cells' first
      lines gives back the stats' numbers. */
  lemma GridKeepsFigures(p: StatsProps)
    requires p.stats.Some? && |p.stats.value| > 0
    ensures var cells := RenderStats(p).grid.value;
      seq(|cells|, i requires 0 <= i < |cells| => cells[i].lines[0])
        == seq(|p.stats.value|, i requires 0 <= i < |p.stats.value| => p.stats.value[i].number)
  {
  }
}
