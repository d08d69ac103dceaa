/** The three ways a destination can be routed, as the desktop app and the relay store them. */
module Routes {
  import opened Text

  datatype Route = Tunnel | Direct | Blocked {

    /** The final route is tunnel or direct. */
    function AsFinal(): (r: Route)
      ensures r == if this == Blocked then Tunnel else this
    {
      match this
      case Direct => Direct
      case Tunnel => Tunnel
      case Blocked => Tunnel
    }
  }

  /** Legacy and unknown kinds collapse to tunnel. */
  function KindOf(s: string): Route {
    var k := Lower(Trim(s));
    if k == "direct" then Direct else if k == "blocked" then Blocked else Tunnel
  }

  function FinalOf(s: string): Route {
    KindOf(s).AsFinal()
  }
}
