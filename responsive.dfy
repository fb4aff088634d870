/** The selectors of the responsive layout constants. The screen width, read once when the
    module loads, and the device pixel ratio are parameters here. */
module Responsive {
  import opened Wrappers

  /** `DeviceType`: the width classes computed from the window width. */
  datatype DeviceType = DeviceType(
    isPhone: bool,
    isTablet: bool,
    isDesktop: bool,
    isSmallPhone: bool,
    isLargePhone: bool)

  function DeviceTypeOf(width: real): (d: DeviceType)
    ensures d.isSmallPhone ==> d.isPhone && !d.isLargePhone
  {
    DeviceType(width < 768.0, 768.0 <= width < 1024.0, width >= 1024.0, width < 375.0, width >= 414.0)
  }

  /** Every width is in exactly one of the three classes. */
  lemma ExactlyOneClass(width: real)
    ensures var d := DeviceTypeOf(width);
      (d.isPhone && !d.isTablet && !d.isDesktop)
      || (!d.isPhone && d.isTablet && !d.isDesktop)
      || (!d.isPhone && !d.isTablet && d.isDesktop)
  {
  }

  /** The class a width falls in, as one value. */
  datatype DeviceClass = Phone | Tablet | Desktop

  function ClassOf(width: real): (c: DeviceClass)
    ensures c == Phone <==> DeviceTypeOf(width).isPhone
    ensures c == Tablet <==> DeviceTypeOf(width).isTablet
    ensures c == Desktop <==> DeviceTypeOf(width).isDesktop
  {
    if width < 768.0 then Phone else if width < 1024.0 then Tablet else Desktop
  }

  /** The argument of `getResponsiveValue`: per-class values, each optional, and a default. */
  datatype ResponsiveValues<T> = ResponsiveValues(phone: Option<T>, tablet: Option<T>, desktop: Option<T>, default: T)

  /** `ResponsiveUtils.getResponsiveValue(values)`, test for test as written. */
  function GetResponsiveValue<T>(width: real, values: ResponsiveValues<T>): T
  {
    var d := DeviceTypeOf(width);
    if d.isDesktop && values.desktop.Some? then values.desktop.value
    else if d.isTablet && values.tablet.Some? then values.tablet.value
    else if d.isPhone && values.phone.Some? then values.phone.value
    else values.default
  }

  function ValueFor<T>(c: DeviceClass, values: ResponsiveValues<T>): Option<T>
  {
    match c
    case Phone => values.phone
    case Tablet => values.tablet
    case Desktop => values.desktop
  }

  /** The value given for the current class wins; without one, the default. A value given for
      another class is never used. */
  lemma ResponsiveValuePrecedence<T>(width: real, values: ResponsiveValues<T>)
    ensures var own := ValueFor(ClassOf(width), values);
      GetResponsiveValue(width, values) == if own.Some? then own.value else values.default
  {
  }

  /** The two cases the typography test checks at width 375. */
  lemma ResponsiveValueExamples()
    ensures GetResponsiveValue(375.0, ResponsiveValues(Some(100), Some(200), Some(300), 150)) == 100
    ensures GetResponsiveValue(375.0, ResponsiveValues(None, Some(200), Some(300), 150)) == 150
  {
  }

  /** `Math.round`: the integer nearest to `x`, halves rounded up. */
  function JsRound(x: real): (n: int)
    ensures x - 0.5 < n as real <= x + 0.5
  {
    (x + 0.5).Floor
  }

  /** `PixelRatio.roundToNearestPixel(x)`: `x` moved to the nearest whole number of device
      pixels, `ratio` device pixels per layout unit. */
  function RoundToNearestPixel(x: real, ratio: real): real
    requires ratio > 0.0
  {
    JsRound(x * ratio) as real / ratio
  }

  /** `ResponsiveUtils.fontSize(size)`: the size scaled by the width relative to 375, clamped
      to 12..48 before snapping to the pixel grid and rounding. The bounds hold on every
      screen with at least one device pixel per layout unit. */
  function FontSize(width: real, size: real, ratio: real): (r: int)
    requires ratio > 0.0
    ensures ratio >= 1.0 ==> 12 <= r <= 48
  {
    var newSize := size * (width / 375.0);
    if newSize < 12.0 then 12
    else if newSize > 48.0 then 48
    else
      SnapStaysInRange(newSize, ratio);
      JsRound(RoundToNearestPixel(newSize, ratio))
  }

  /** Snapping a size in 12..48 to the pixel grid and rounding stays in 12..48. */
  lemma SnapStaysInRange(x: real, ratio: real)
    requires 12.0 <= x <= 48.0 && ratio > 0.0
    ensures ratio >= 1.0 ==> 12 <= JsRound(RoundToNearestPixel(x, ratio)) <= 48
  {
    if ratio < 1.0 {
      return;
    }
    var k := JsRound(x * ratio);
    var q := k as real / ratio;
    SnapBounds(x, ratio, k);
    if ratio == 1.0 {
      assert q == k as real;
      assert k <= 48;
    }
  }

  /** The snapped value lies within half a device pixel of `x`. */
  lemma SnapBounds(x: real, ratio: real, k: int)
    requires ratio >= 1.0
    requires x * ratio - 0.5 < k as real <= x * ratio + 0.5
    ensures x - 0.5 / ratio < k as real / ratio <= x + 0.5 / ratio
    ensures 0.5 / ratio <= 0.5
    ensures ratio > 1.0 ==> 0.5 / ratio < 0.5
  {
    var q := k as real / ratio;
    assert q * ratio == k as real;
  }

  /** Below one device pixel per layout unit the floor is not kept. */
  lemma FontSizeBelowFloorAtLowDensity()
    ensures FontSize(375.0, 12.0, 0.7) == 11
  {
    assert 12.0 * (375.0 / 375.0) == 12.0;
    assert JsRound(12.0 * 0.7) == 8;
    assert 8.0 / 0.7 + 0.5 == 167.0 / 14.0;
    assert JsRound(8.0 / 0.7) == 11;
  }

  /** `Layout.getContainerWidth()`: the widest container on desktop, the large one on tablets,
      and the screen width less twice the medium spacing on phones. */
  function ContainerWidth(width: real): real
  {
    if DeviceTypeOf(width).isDesktop then 1140.0
    else if DeviceTypeOf(width).isTablet then 960.0
    else width - 2.0 * 16.0
  }

  /** `Layout.getGridColumns()`. */
  function GridColumns(width: real): (n: int)
    ensures 2 <= n <= 4
  {
    if DeviceTypeOf(width).isDesktop then 4
    else if DeviceTypeOf(width).isTablet then 3
    else 2
  }

  lemma LayoutByClass(width: real)
    ensures ClassOf(width) == Desktop ==> ContainerWidth(width) == 1140.0 && GridColumns(width) == 4
    ensures ClassOf(width) == Tablet ==> ContainerWidth(width) == 960.0 && GridColumns(width) == 3
    ensures ClassOf(width) == Phone ==> ContainerWidth(width) == width - 32.0 && GridColumns(width) == 2
  {
  }

  /** A wider screen never gets a narrower container or fewer columns. */
  lemma LayoutMonotone(w1: real, w2: real)
    requires w1 <= w2
    ensures ContainerWidth(w1) <= ContainerWidth(w2)
    ensures GridColumns(w1) <= GridColumns(w2)
  {
  }

  /** On a phone the container leaves 16 on either side. */
  lemma PhoneContainerFits(width: real)
    requires DeviceTypeOf(width).isPhone
    ensures ContainerWidth(width) + 32.0 == width
  {
  }

  /** `Accessibility.getAccessibleFontSize(size)`: the size, raised to 16 when smaller. */
  function AccessibleFontSize(size: real): (r: real)
    ensures r >= 16.0 && r >= size
    ensures r == size || r == 16.0
  {
    if size >= 16.0 then size else 16.0
  }

  lemma AccessibleFontSizeFixed(size: real)
    ensures AccessibleFontSize(AccessibleFontSize(size)) == AccessibleFontSize(size)
    ensures size >= 16.0 ==> AccessibleFontSize(size) == size
  {
  }
}
