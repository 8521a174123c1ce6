/** Strings that say which device a request is for: the position-addressed
    service and the admission frame. */
module Addressing {
  import opened Options
  import opened Text
  import L = DeviceListing

  // ---------------------------------------------------------------------
  // Position-addressed services
  // ---------------------------------------------------------------------

  function DevpathService(prefix: string, devpath: string, cmd: string): string {
    prefix + ":" + devpath + ":" + cmd
  }

  /** A devpath has one colon, the one of "usb:". */
  lemma DevpathColons(s: string)
    requires L.IsDevpath(s)
    ensures s == "usb" + [':'] + s[4..] && ':' !in s[4..]
  {
    assert s == s[..4] + s[4..];
    forall i | 0 <= i < |s[4..]|
      ensures s[4..][i] != ':'
    {
      assert s[4..][i] == s[4 + i];
    }
  }

  lemma CutAgrees(a: string, x: string, b: string, y: string)
    requires ':' !in a && ':' !in b && a + [':'] + x == b + [':'] + y
    ensures a == b && x == y
  {
    IndexOfCut(a, ':', x);
    IndexOfCut(b, ':', y);
  }

  /** Under one prefix a service names one device and one command: no command
      text, and no devpath, can make it read as another's. */
  lemma ServiceUnambiguous(prefix: string, d: string, cmd: string, e: string, other: string)
    requires L.IsDevpath(d) && L.IsDevpath(e)
    requires DevpathService(prefix, d, cmd) == DevpathService(prefix, e, other)
    ensures d == e && cmd == other
  {
    DevpathColons(d);
    DevpathColons(e);
    var x, y := d[4..] + [':'] + cmd, e[4..] + [':'] + other;
    assert DevpathService(prefix, d, cmd) == prefix + ":usb:" + x;
    assert DevpathService(prefix, e, other) == prefix + ":usb:" + y;
    SuffixAgrees(prefix + ":usb:", x, y);
    CutAgrees(d[4..], cmd, e[4..], other);
  }

  lemma SuffixAgrees(p: string, x: string, y: string)
    requires p + x == p + y
    ensures x == y
  {
    assert x == (p + x)[|p|..] == (p + y)[|p|..] == y;
  }

  /** The devpath's pattern is what this rests on: with a colon let in, one
      string is two different requests. */
  lemma ColonsWouldCollide(prefix: string)
    ensures DevpathService(prefix, "usb:1-1", "usb:1-2:reboot") == DevpathService(prefix, "usb:1-1:usb:1-2", "reboot")
    ensures L.IsDevpath("usb:1-1") && !L.IsDevpath("usb:1-1:usb:1-2")
  {
    var a, b := "usb:1-1", "usb:1-1:usb:1-2";
    assert prefix + ":" + a + ":" + "usb:1-2:reboot" == prefix + ":" + b + ":" + "reboot";
    assert b[7] == ':';
  }

  // ---------------------------------------------------------------------
  // The admission frame
  // ---------------------------------------------------------------------

  datatype FrameResult = Frame(text: string) | BadClass | BadDevpath(why: L.DevpathError)

  predicate ClassOk(class_: string) {
    class_ != "" && forall i :: 0 <= i < |class_| ==> class_[i] !in {' ', '\t', '\r', '\n', '\0', '='}
  }

  function AdmissionFrame(class_: string, devpath: string, token: int): (r: FrameResult)
    ensures r.Frame? <==> ClassOk(class_) && (devpath == "" || L.IsDevpath(devpath))
  {
    if !ClassOk(class_) then BadClass
    else if devpath == "" then Frame("fence:v1 class=" + class_)
    else
      match L.ValidateDevpath(devpath)
      case Some(why) => BadDevpath(why)
      case None => Frame("fence:v1 class=" + class_ + " devpath=" + devpath + " fence=" + FormatInt(token))
  }

  /** One character more keeps a class a word unless it is white space of a line, a
      NUL or an equals sign. */
  lemma ClassGrows(k: string, c: char)
    ensures !ClassOk("")
    ensures ClassOk(k + [c]) <==> (k == "" || ClassOk(k)) && c != ' ' && c != '\t' && c != '\r' && c != '\n'
                                  && c != '\0' && c != '='
  {
    assert forall i :: 0 <= i < |k| ==> (k + [c])[i] == k[i];
    assert (k + [c])[|k|] == c;
  }

  /** The texts as they go on the wire. */
  lemma AddressTexts(token: int)
    ensures DevpathService("host-usb", "usb:3-1.4", "get-state") == "host-usb:usb:3-1.4:get-state"
    ensures AdmissionFrame("enroll", "", token) == Frame("fence:v1 class=enroll")
    ensures AdmissionFrame("job", "usb:3-1.4", token) ==
            Frame("fence:v1 class=job devpath=usb:3-1.4 fence=" + FormatInt(token))
  {
    ExamplesOk();
    hide FormatInt, L.IsDevpath, ClassOk;
    assert "fence:v1 class=" + "job" + " devpath=" + "usb:3-1.4" + " fence=" ==
      "fence:v1 class=job devpath=usb:3-1.4 fence=";
  }

  lemma ExamplesOk()
    ensures L.IsDevpath("usb:3-1.4") && ClassOk("enroll") && ClassOk("job")
  {
    assert "usb:3-1.4"[..4] == "usb:";
  }

  datatype Announcement = Announcement(class_: string, bound: Option<Bound>)
  datatype Bound = Bound(devpath: string, token: int)

  /** A reader of the frame: split at spaces, one key=value to a field. */
  function ReadFrame(s: string): Option<Announcement> {
    match Cut(s, "fence:v1 class=")
    case None => None
    case Some(rest) =>
      match IndexOf(rest, ' ')
      case None => Some(Announcement(rest, None))
      case Some(i) =>
        match ReadBound(rest[i + 1..])
        case None => None
        case Some(b) => Some(Announcement(rest[..i], Some(b)))
  }

  function ReadBound(s: string): Option<Bound> {
    match Cut(s, "devpath=")
    case None => None
    case Some(rest) =>
      match IndexOf(rest, ' ')
      case None => None
      case Some(i) =>
        match Cut(rest[i + 1..], "fence=")
        case None => None
        case Some(num) =>
          match ParseInt(num)
          case None => None
          case Some(n) => Some(Bound(rest[..i], n))
  }

  /** What follows the given prefix, if s has it. */
  function Cut(s: string, prefix: string): Option<string> {
    if prefix <= s then Some(s[|prefix|..]) else None
  }

  lemma CutPrefix(prefix: string, rest: string)
    ensures Cut(prefix + rest, prefix) == Some(rest)
  {
  }

  lemma NoSpace(s: string)
    requires ClassOk(s) || L.IsDevpath(s)
    ensures ' ' !in s
  {
    if L.IsDevpath(s) {
      L.DevpathIsWord(s);
    }
  }

  function BoundText(devpath: string, token: int): string {
    "devpath=" + (devpath + [' '] + ("fence=" + FormatInt(token)))
  }

  lemma BoundRoundTrip(devpath: string, token: int)
    requires L.IsDevpath(devpath) && MIN_INT64 <= token <= MAX_INT64
    ensures ReadBound(BoundText(devpath, token)) == Some(Bound(devpath, token))
  {
    hide L.IsDevpath, ParseInt, FormatInt;
    NoSpace(devpath);
    ParseFormat(token);
    var num := "fence=" + FormatInt(token);
    CutPrefix("devpath=", devpath + [' '] + num);
    IndexOfCut(devpath, ' ', num);
    CutPrefix("fence=", FormatInt(token));
  }

  lemma FrameText(class_: string, devpath: string, token: int)
    requires ClassOk(class_) && L.IsDevpath(devpath)
    ensures AdmissionFrame(class_, devpath, token) ==
            Frame("fence:v1 class=" + (class_ + [' '] + BoundText(devpath, token)))
  {
    assert devpath != "";
    hide L.IsDevpath, FormatInt, ClassOk;
    var num := FormatInt(token);
    assert " devpath=" == [' '] + "devpath=" && " fence=" == [' '] + "fence=";
    assert "fence:v1 class=" + class_ + " devpath=" + devpath + " fence=" + num ==
           "fence:v1 class=" + (class_ + [' '] + BoundText(devpath, token));
  }

  /** Every frame that is sent determines its class, its devpath and its token. */
  lemma FrameRoundTrip(class_: string, devpath: string, token: int)
    requires AdmissionFrame(class_, devpath, token).Frame?
    requires MIN_INT64 <= token <= MAX_INT64
    ensures ReadFrame(AdmissionFrame(class_, devpath, token).text) ==
              Some(Announcement(class_, if devpath == "" then None else Some(Bound(devpath, token))))
  {
    NoSpace(class_);
    if devpath == "" {
      CutPrefix("fence:v1 class=", class_);
    } else {
      BoundRoundTrip(devpath, token);
      FrameText(class_, devpath, token);
      hide L.IsDevpath, FormatInt, ClassOk, BoundText, ReadBound, AdmissionFrame;
      var text := BoundText(devpath, token);
      CutPrefix("fence:v1 class=", class_ + [' '] + text);
      IndexOfCut(class_, ' ', text);
    }
  }
}
