/** Screen-size classification and the class table (utils/responsive.ts). The window
    width, read once from the platform in the source, is an explicit parameter here. */
module Responsive {

  datatype ScreenSize = Small | Medium | Large | XLarge

  const SmallBreakpoint: real := 320.0
  const MediumBreakpoint: real := 375.0
  const LargeBreakpoint: real := 414.0
  const TabletBreakpoint: real := 768.0

  /** Breakpoints checked from the smallest up; each is an inclusive upper bound. */
  function GetScreenSize(width: real): (r: ScreenSize)
    ensures r == Small <==> width <= SmallBreakpoint
    ensures r == Medium <==> SmallBreakpoint < width <= MediumBreakpoint
    ensures r == Large <==> MediumBreakpoint < width <= LargeBreakpoint
    ensures r == XLarge <==> LargeBreakpoint < width
  {
    if width <= SmallBreakpoint then Small
    else if width <= MediumBreakpoint then Medium
    else if width <= LargeBreakpoint then Large
    else XLarge
  }

  function Rank(s: ScreenSize): nat {
    match s
    case Small => 0
    case Medium => 1
    case Large => 2
    case XLarge => 3
  }

  /** A wider window never gets a smaller size class. */
  lemma ScreenSizeMonotone(w1: real, w2: real)
    requires w1 <= w2
    ensures Rank(GetScreenSize(w1)) <= Rank(GetScreenSize(w2))
  {
  }

  function IsTablet(width: real): bool {
    width >= TabletBreakpoint
  }

  function IsSmallPhone(width: real): bool {
    width <= SmallBreakpoint
  }

  /** A small phone is exactly a window in the small size class, and every tablet is in
      the extra-large class (but not conversely: 415 to 767 is extra-large too). */
  lemma DeviceClassesAgreeWithSizes(width: real)
    ensures IsSmallPhone(width) <==> GetScreenSize(width) == Small
    ensures IsTablet(width) ==> GetScreenSize(width) == XLarge
  {
  }

  /** The converse fails: a 500-wide window is extra-large but not a tablet. */
  lemma ExtraLargeNeedNotBeTablet()
    ensures GetScreenSize(500.0) == XLarge && !IsTablet(500.0)
  {
  }

  datatype ClassKind = Padding | Margin | TextSize

  /** The `getResponsiveClasses` table. */
  function ResponsiveClasses(kind: ClassKind, size: ScreenSize): string {
    match kind
    case Padding =>
      (match size case Small => "p-2" case Medium => "p-3" case Large => "p-4" case XLarge => "p-6")
    case Margin =>
      (match size case Small => "m-2" case Medium => "m-3" case Large => "m-4" case XLarge => "m-6")
    case TextSize =>
      (match size case Small => "text-sm" case Medium => "text-base" case Large => "text-lg" case XLarge => "text-xl")
  }

  /** The class for the current window. */
  function GetResponsiveClass(kind: ClassKind, width: real): string {
    ResponsiveClasses(kind, GetScreenSize(width))
  }

  /** Two windows get the same class of a kind exactly when they are in the same size
      class: the table never reuses a class within a kind. */
  lemma ResponsiveClassIdentifiesSize(kind: ClassKind, w1: real, w2: real)
    ensures GetResponsiveClass(kind, w1) == GetResponsiveClass(kind, w2) <==>
      GetScreenSize(w1) == GetScreenSize(w2)
  {
  }
}
