/**
 * The scan-count badge: the colour palette chosen by the count's
 * magnitude and the padding, font and icon sizes chosen by the size name.
 */
module ScanBadge {
  import opened Base
  import opened Json

  /** The five colour buckets, from an idle count to a high volume. */
  datatype Palette = Gray | Blue | Green | Amber | Pink

  /** Background, text and icon colours. */
  datatype Colors = Colors(bg: string, text: string, icon: string)

  function PaletteColors(p: Palette): Colors
  {
    match p
    case Gray => Colors("#f3f4f6", "#6b7280", "#9ca3af")
    case Blue => Colors("#dbeafe", "#1d4ed8", "#3b82f6")
    case Green => Colors("#dcfce7", "#15803d", "#22c55e")
    case Amber => Colors("#fef3c7", "#b45309", "#f59e0b")
    case Pink => Colors("#fce7f3", "#be185d", "#ec4899")
  }

  /** The palettes are told apart by their colours. */
  lemma PaletteColorsInjective(p: Palette, q: Palette)
    requires PaletteColors(p) == PaletteColors(q)
    ensures p == q
  {
  }

  /** `count <= limit` in JavaScript: `count` is converted to a number, and NaN compares false. */
  predicate AtMost(count: Value, limit: int)
  {
    var n := ToNumber(count);
    n.Some? && n.value <= limit
  }

  /**
   * `getColorConfig(count)`: exactly zero is gray; any other count up to 5
   * (a negative one or `null` included) is blue; up to 15 green; up to 30
   * amber; everything else, a non-numeric count included, pink.
   */
  function BucketOf(count: Value): (r: Palette)
    ensures r == Gray <==> count == Num(0)
    ensures r == Blue <==> count != Num(0) && AtMost(count, 5)
    ensures r == Green <==> !AtMost(count, 5) && AtMost(count, 15)
    ensures r == Amber <==> !AtMost(count, 15) && AtMost(count, 30)
    ensures r == Pink <==> !AtMost(count, 30)
  {
    if count == Num(0) then Gray
    else if AtMost(count, 5) then Blue
    else if AtMost(count, 15) then Green
    else if AtMost(count, 30) then Amber
    else Pink
  }

  /** The badge's colours; the `count` prop defaults to 0 when it is left out. */
  function BadgeColors(count: Value): (r: Colors)
    ensures count.Undef? ==> r == PaletteColors(Gray)
    ensures !count.Undef? ==> r == PaletteColors(BucketOf(count))
  {
    PaletteColors(BucketOf(if count.Undef? then Num(0) else count))
  }

  /** How intense a palette is, from gray (0) to pink (4). */
  function Rank(p: Palette): (r: nat)
    ensures r <= 4
  {
    match p
    case Gray => 0
    case Blue => 1
    case Green => 2
    case Amber => 3
    case Pink => 4
  }

  /** For positive counts the palette never gets less intense as the count grows. */
  lemma BucketMonotone(a: int, b: int)
    requires 0 < a <= b
    ensures Rank(BucketOf(Num(a))) <= Rank(BucketOf(Num(b)))
  {
  }

  /** On a numeric count the buckets are the ranges {0}, [..5] without 0, (5..15], (15..30] and (30..]. */
  lemma NumericBuckets(n: int)
    ensures BucketOf(Num(n)) == Gray <==> n == 0
    ensures BucketOf(Num(n)) == Blue <==> n != 0 && n <= 5
    ensures BucketOf(Num(n)) == Green <==> 5 < n <= 15
    ensures BucketOf(Num(n)) == Amber <==> 15 < n <= 30
    ensures BucketOf(Num(n)) == Pink <==> 30 < n
  {
  }

  /** The bucket boundaries 5, 15 and 30 belong to the lower bucket, and the next count to the upper one. */
  lemma BoundariesInclusive()
    ensures BucketOf(Num(5)) == Blue && BucketOf(Num(6)) == Green
    ensures BucketOf(Num(15)) == Green && BucketOf(Num(16)) == Amber
    ensures BucketOf(Num(30)) == Amber && BucketOf(Num(31)) == Pink
    ensures BucketOf(Num(1)) == Blue && BucketOf(Num(-1)) == Blue
  {
  }

  /** Padding, font size, icon size and gap of a badge size. */
  datatype SizeConfig = SizeConfig(px: nat, py: nat, fontSize: string, iconSize: nat, gap: nat)

  const Small := SizeConfig(8, 2, "xs", 12, 4)
  const Medium := SizeConfig(10, 4, "sm", 14, 5)
  const Large := SizeConfig(12, 6, "md", 16, 6)

  /** `sizeConfig[size] || sizeConfig.md`; a missing `size` prop defaults to "md". */
  function SizeConfigFor(size: Option<string>): (r: SizeConfig)
    ensures size == Some("sm") ==> r == Small
    ensures size == Some("lg") ==> r == Large
    ensures size != Some("sm") && size != Some("lg") ==> r == Medium
  {
    match size
    case None => Medium
    case Some(name) =>
      if name == "sm" then Small
      else if name == "lg" then Large
      else Medium
  }
}
