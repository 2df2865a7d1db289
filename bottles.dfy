/** YARP bottles as the four modules exchange them: a list of strings, integers and doubles. */
module Bottles {

  /** One element of a bottle; `Missing` is the null value `Bottle.get` gives past the end. */
  datatype Value = Str(s: string) | Int(i: int) | Dbl(d: real) | Missing

  type Bottle = seq<Value>

  /** `bottle.get(i)`. */
  function Get(b: Bottle, i: nat): Value {
    if i < |b| then b[i] else Missing
  }

  /** `Value.asString()`: the text of a string element, "" for anything else. */
  function AsString(v: Value): string {
    if v.Str? then v.s else ""
  }

  /** `Value.asInt()`: an integer as it is, a double truncated toward zero, 0 for anything else. */
  function AsInt(v: Value): int {
    match v
    case Int(i) => i
    case Dbl(d) => if d >= 0.0 then d.Floor else -((-d).Floor)
    case _ => 0
  }

  /** The command word of an RPC request: `command.get(0).asString()`. */
  function Action(b: Bottle): string {
    AsString(Get(b, 0))
  }

  /** The `ack` and `nack` words every RPC handler replies with. */
  const Ack: Value := Str("ack")
  const Nack: Value := Str("nack")
  const NotRecognized: Value := Str("Command not recognized")
}
