/** Where `Eight_Channel_Filter.show_ch` draws each channel: with the
    selector -1 a 2-by-4 grid of subplots filled by two nested loops,
    otherwise one subplot for the selected channel. Only the placement of
    channels in subplots is modelled, not the drawing. */
module SubplotGrid {

  /** Rows and columns of the grid of subplots. */
  const GridRows: nat := 2
  const GridColumns: nat := 4

  /** The selector that asks for every channel. */
  const AllChannels: int := -1

  /** One call of the per-channel plot: `channel` drawn in the subplot at
      (`row`, `column`). */
  datatype Panel = Panel(row: nat, column: nat, channel: int)

  /** The placements the nested loops make, in call order: the i-th call
      draws channel i in cell (i div 4, i mod 4). */
  ghost predicate IsGridLayout(panels: seq<Panel>) {
    |panels| == GridRows * GridColumns &&
    forall i :: 0 <= i < |panels| ==> panels[i] == Panel(i / GridColumns, i % GridColumns, i)
  }

  /** The two nested loops over subplot rows and over the channels of a row. */
  method GridPlacements() returns (panels: seq<Panel>)
    ensures IsGridLayout(panels)
  {
    panels := [];
    var row := 0;
    while row < GridRows
      invariant 0 <= row <= GridRows
      invariant |panels| == GridColumns * row
      invariant forall i :: 0 <= i < |panels| ==> panels[i] == Panel(i / GridColumns, i % GridColumns, i)
    {
      var column := GridColumns * row;
      var ch := column;
      while ch < GridColumns + column
        invariant column <= ch <= GridColumns + column
        invariant |panels| == ch
        invariant forall i :: 0 <= i < |panels| ==> panels[i] == Panel(i / GridColumns, i % GridColumns, i)
      {
        panels := panels + [Panel(row, ch - column, ch)];
        ch := ch + 1;
      }
      row := row + 1;
    }
  }

  /** The subplots `show_ch` draws for a channel selector, given the number
      of samples per channel. The total-time label reads the last entry of
      the time axis before any subplot is drawn, so with no samples the
      call aborts (`drawn` is false) and nothing is placed. */
  method ShowChannels(channel: int, samples: nat) returns (drawn: bool, panels: seq<Panel>)
    ensures drawn <==> samples > 0
    ensures !drawn ==> panels == []
    ensures drawn && channel == AllChannels ==> IsGridLayout(panels)
    ensures drawn && channel != AllChannels ==> panels == [Panel(0, 0, channel)]
  {
    drawn := samples > 0;
    if !drawn {
      panels := [];
    } else if channel == AllChannels {
      panels := GridPlacements();
    } else {
      panels := [Panel(0, 0, channel)];
    }
  }

  /** Call i draws channel ch, in cell (ch div 4, ch mod 4). */
  ghost predicate HoldsChannel(panels: seq<Panel>, i: int, ch: int) {
    0 <= i < |panels| && panels[i].channel == ch &&
    panels[i].row == ch / GridColumns && panels[i].column == ch % GridColumns
  }

  /** In the grid every channel 0..7 is drawn exactly once, in cell
      (ch div 4, ch mod 4), and every cell of the grid holds exactly one
      channel. */
  lemma GridCoversEachChannelOnce(panels: seq<Panel>)
    requires IsGridLayout(panels)
    ensures forall i, j :: 0 <= i < |panels| && 0 <= j < |panels| && panels[i].channel == panels[j].channel ==> i == j
    ensures forall ch :: 0 <= ch < GridRows * GridColumns ==> HoldsChannel(panels, ch, ch)
    ensures forall i :: 0 <= i < |panels| ==> 0 <= panels[i].channel < GridRows * GridColumns
    ensures forall i :: 0 <= i < |panels| ==> panels[i].row < GridRows && panels[i].column < GridColumns
    ensures forall i, j :: 0 <= i < |panels| && 0 <= j < |panels| ==>
      (panels[i].row, panels[i].column) == (panels[j].row, panels[j].column) ==> i == j
  {
  }
}
