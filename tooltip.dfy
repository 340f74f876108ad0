/**
  `positionTooltip` of main.js:485-520: where a tooltip of the given size is
  placed relative to the mouse pointer, in CSS pixels. The DOM reads
  (`offsetWidth`, `innerWidth`, the mouse event) are the parameters and the
  two style writes are the results.
*/
module Tooltip {
  /** The gap kept between the tooltip and the pointer or the window edge. */
  const Margin: real := 15.0

  method PositionTooltip(tooltipWidth: real, tooltipHeight: real, clientY: real, pageX: real, pageY: real,
                         innerWidth: real, innerHeight: real) returns (top: real, left: real)
    requires tooltipWidth >= 0.0 && tooltipHeight >= 0.0
    // vertical: above the pointer exactly in the lower half of the window, below it otherwise
    ensures clientY > innerHeight / 2.0 <==> top + tooltipHeight + Margin == pageY
    ensures clientY <= innerHeight / 2.0 <==> top == pageY + Margin
    ensures top + tooltipHeight < pageY || pageY < top
    // horizontal: never past the right edge less the margin
    ensures left + tooltipWidth + Margin <= innerWidth
    ensures tooltipWidth + 2.0 * Margin <= innerWidth ==> Margin <= left
    ensures tooltipWidth + 2.0 * Margin > innerWidth ==> left == innerWidth - tooltipWidth - Margin
    ensures Margin <= pageX - tooltipWidth / 2.0 && pageX - tooltipWidth / 2.0 + tooltipWidth + Margin <= innerWidth
            ==> left == pageX - tooltipWidth / 2.0
    // the left clamp applies when the centred tooltip starts left of the margin and the window is wide enough
    ensures pageX - tooltipWidth / 2.0 < Margin && tooltipWidth + 2.0 * Margin <= innerWidth ==> left == Margin
    // the right clamp applies whenever the tooltip, after the left clamp, would pass the right edge less the margin
    ensures var raised := if pageX - tooltipWidth / 2.0 < Margin then Margin else pageX - tooltipWidth / 2.0;
            raised + tooltipWidth + Margin > innerWidth ==> left == innerWidth - tooltipWidth - Margin
    ensures left == pageX - tooltipWidth / 2.0 || left == Margin || left == innerWidth - tooltipWidth - Margin
  {
    if clientY > innerHeight / 2.0 {
      top := pageY - tooltipHeight - Margin;
    } else {
      top := pageY + Margin;
    }
    left := pageX - (tooltipWidth / 2.0);
    if left < Margin {
      left := Margin;
    }
    if left + tooltipWidth + Margin > innerWidth {
      left := innerWidth - tooltipWidth - Margin;
    }
  }
}
