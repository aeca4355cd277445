/** The testbed the suites run against: its devices with their `custom`
    expectation attributes, their topology interfaces and links, and the
    answers each device gives to `parse`, `execute` and `ping`, taken as
    inputs. */
module Testbed {
  import opened Text
  import opened PyValue

  /** A device of the testbed. A command absent from `parsed`, `executed`
      or `pings` is one whose call raises. */
  datatype Device = Device(
    name: string,
    kind: string,
    connected: bool,
    custom: map<string, Value>,
    interfaces: map<string, map<string, Value>>,
    parsed: map<string, Value>,
    executed: map<string, string>,
    pings: map<string, Value>)

  /** One end of a link: an interface of a device. */
  datatype Endpoint = Endpoint(device: Device, name: string)

  datatype Link = Link(name: string, interfaces: seq<Endpoint>)

  /** `device.custom.get(key, default)` */
  function CustomGet(d: Device, key: string, default: Value): (v: Value)
    ensures key !in d.custom ==> v == default
  {
    if key in d.custom then d.custom[key] else default
  }

  /** `device.parse(cmd)` */
  function Parse(d: Device, cmd: string): (r: Result<Value>)
    ensures r.Ok? <==> cmd in d.parsed
  {
    if cmd in d.parsed then Ok(d.parsed[cmd]) else Raised
  }

  /** `device.execute(cmd)` */
  function Execute(d: Device, cmd: string): (r: Result<string>)
    ensures r.Ok? <==> cmd in d.executed
  {
    if cmd in d.executed then Ok(d.executed[cmd]) else Raised
  }

  /** `device.ping(ip)` */
  function Ping(d: Device, ip: string): (r: Result<Value>)
    ensures r.Ok? <==> ip in d.pings
  {
    if ip in d.pings then Ok(d.pings[ip]) else Raised
  }

  /** `getattr(device.interfaces.get(name), attr, None)`, `None` when the
      device has no such interface. */
  function InterfaceAttr(d: Device, name: string, attr: string): (v: Value)
    ensures name !in d.interfaces ==> v == Null
  {
    if name in d.interfaces && attr in d.interfaces[name] then d.interfaces[name][attr] else Null
  }

  /** The elements of `s` that satisfy `p`, in order. */
  function Select<T(!new)>(s: seq<T>, p: T -> bool): (r: seq<T>)
    ensures |r| <= |s|
    ensures forall x :: x in r <==> x in s && p(x)
  {
    if s == [] then []
    else if p(s[|s| - 1]) then Select(s[..|s| - 1], p) + [s[|s| - 1]]
    else (assert forall x :: x in s <==> x in s[..|s| - 1] || x == s[|s| - 1];
          Select(s[..|s| - 1], p))
  }

  /** A device loop that appends every device satisfying `p` to a list. */
  method Keep<T(!new)>(s: seq<T>, p: T -> bool) returns (r: seq<T>)
    ensures r == Select(s, p)
  {
    r := [];
    for i := 0 to |s|
      invariant r == Select(s[..i], p)
    {
      assert s[..i + 1][..i] == s[..i];
      if p(s[i]) {
        r := r + [s[i]];
      }
    }
    assert s[..|s|] == s;
  }

  /** Nothing is selected exactly when no element satisfies `p`. */
  lemma {:induction false} SelectEmpty<T(!new)>(s: seq<T>, p: T -> bool)
    ensures Select(s, p) == [] <==> forall x :: x in s ==> !p(x)
  {
    if s != [] {
      SelectEmpty(s[..|s| - 1], p);
      assert forall x :: x in s <==> x in s[..|s| - 1] || x == s[|s| - 1];
    }
  }
}
