/** The web build's log sink (ConsoleListenerEmscripten.cpp): every message
    goes to the browser console through `WebAdapter_LogColored`, in a
    colour chosen from its level.

    The console call is foreign; the listener records each call it makes. */
module ConsoleListener {

  /** `Common::Log::LOG_LEVELS` (Log.h is not part of this model). */
  datatype LogLevel = LNOTICE | LERROR | LWARNING | LINFO | LDEBUG

  /** The levels that get a colour of their own. */
  predicate Highlighted(level: LogLevel)
  {
    level == LNOTICE || level == LERROR || level == LWARNING
  }

  /** The CSS colour a message is logged in. */
  function Color(useColor: bool, level: LogLevel): (c: string)
    ensures c in {"black", "green", "red", "orange"}
  {
    if !useColor then "black"
    else match level
      case LNOTICE => "green"
      case LERROR => "red"
      case LWARNING => "orange"
      case _ => "black"
  }

  /** Black is the colour of every message when colour is off and of every
      other level when it is on; with colour on, the highlighted levels get
      three distinct colours, so the colour tells which of them it was. */
  lemma ColorSeparatesLevels(useColor: bool, l1: LogLevel, l2: LogLevel)
    ensures Color(useColor, l1) == "black" <==> !useColor || !Highlighted(l1)
    ensures useColor && Highlighted(l1) && Color(useColor, l1) == Color(useColor, l2) ==> l1 == l2
    ensures useColor ==>
      && (Color(useColor, l1) == "green" <==> l1 == LNOTICE)
      && (Color(useColor, l1) == "red" <==> l1 == LERROR)
      && (Color(useColor, l1) == "orange" <==> l1 == LWARNING)
  {
  }

  /** A `WebAdapter_LogColored(msg, color)` call. */
  datatype ColoredLog = ColoredLog(msg: string, color: string)

  class ConsoleListener {
    var useColor: bool
    /** The console calls made so far. */
    var calls: seq<ColoredLog>

    /** Colour starts enabled. */
    constructor ()
      ensures useColor && calls == []
    {
      useColor := true;
      calls := [];
    }

    /** `Log`: exactly one console call, with the text unchanged and the
        colour of its level. */
    method Log(level: LogLevel, text: string)
      modifies this
      ensures calls == old(calls) + [ColoredLog(text, Color(useColor, level))]
      ensures useColor == old(useColor)
    {
      var color := "black";
      if useColor {
        match level
        case LNOTICE => color := "green";
        case LERROR => color := "red";
        case LWARNING => color := "orange";
        case _ =>
      }
      calls := calls + [ColoredLog(text, color)];
    }
  }

  /** A fresh listener logs an error in red and a debug message in black. */
  method FreshListenerColors(text: string) returns (first: ColoredLog, second: ColoredLog)
    ensures first == ColoredLog(text, "red") && second == ColoredLog(text, "black")
  {
    var listener := new ConsoleListener();
    listener.Log(LERROR, text);
    listener.Log(LDEBUG, text);
    first, second := listener.calls[0], listener.calls[1];
  }
}
