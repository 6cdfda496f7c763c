/** The response of `get_vnstat_data`: one run of `vnstat --json` turned into
    exactly one of three payloads, `{"error": ...}`, `{"message": ...}` or
    `{"interfaces": [...]}`. */
module Shaper {
  import opened Text
  import opened Traffic

  /** The tool's standard output after `json.loads`: a document whose
      `interfaces` key may be absent, or text the parser raised on (carrying
      the exception's description). */
  datatype Document =
    | Document(interfaces: Option<seq<Interface>>)
    | Unparsable(description: string)

  /** One attempt to run the tool. Either it ran and exited with a return
      code, or `subprocess.run` raised, carrying the exception's description.
      It raises when the start fails or when the output cannot be decoded. */
  datatype ToolRun =
    | Completed(returnCode: int, stdout: Document, stderr: string)
    | LaunchFailed(description: string)

  /** The three payload shapes; each has exactly one key. */
  datatype Payload =
    | Error(error: string)
    | Message(message: string)
    | Interfaces(interfaces: seq<Interface>)

  const UnrecognizedOption := "unrecognized option"
  const InvalidOption := "invalid option"

  /** Appended to the tool's error text when it rejected an option. */
  const VersionHint := "。请确保 vnStat 版本为 2.x 及以上，并支持 '--json' 参数。"

  /** The error when the document lists no interface. */
  const NoInterfacesText := "未找到任何被 vnStat 监控的网络接口。"

  /** The message when interfaces exist but none has traffic. */
  const NoTrafficText := "未检测到任何具有流量数据的接口。"

  /** The tool's error text mentions a rejected command-line option. */
  ghost predicate MentionsBadOption(text: string) {
    || (exists i :: OccursAt(text, UnrecognizedOption, i))
    || (exists i :: OccursAt(text, InvalidOption, i))
  }

  /** The error text for a non-zero exit: the stripped standard error, with
      the version hint appended exactly when it mentions a rejected option. */
  function ToolErrorText(stderr: string): (t: string)
    ensures |Strip(stderr)| <= |t| && t[..|Strip(stderr)|] == Strip(stderr)
    ensures MentionsBadOption(Strip(stderr)) ==> t[|Strip(stderr)|..] == VersionHint
    ensures !MentionsBadOption(Strip(stderr)) ==> t == Strip(stderr)
  {
    var m := Strip(stderr);
    if Contains(m, UnrecognizedOption) || Contains(m, InvalidOption) then m + VersionHint else m
  }

  /** The interfaces a document lists; an absent key reads as `[]`. */
  function Listed(doc: Document): seq<Interface>
    requires doc.Document?
  {
    doc.interfaces.GetOr([])
  }

  /** The payload `get_vnstat_data` returns for one run of the tool. */
  ghost function Shape(run: ToolRun): Payload {
    match run
    case LaunchFailed(description) => Error(description)
    case Completed(code, stdout, stderr) =>
      if code != 0 then Error(ToolErrorText(stderr))
      else match stdout
        case Unparsable(description) => Error(description)
        case Document(_) =>
          if Listed(stdout) == [] then Error(NoInterfacesText)
          else if Kept(Listed(stdout)) == [] then Message(NoTrafficText)
          else Interfaces(Kept(Listed(stdout)))
  }

  /** The run exited with 0 and its output parsed. */
  predicate Parsed(run: ToolRun) {
    run.Completed? && run.returnCode == 0 && run.stdout.Document?
  }

  /** The imperative shaping: classify a failed run, check the interface
      list, filter it, and choose the payload. */
  method GetVnstatData(run: ToolRun) returns (payload: Payload)
    ensures payload == Shape(run)
  {
    if run.LaunchFailed? {
      return Error(run.description);
    }
    if run.returnCode != 0 {
      var errorMessage := Strip(run.stderr);
      if Contains(errorMessage, UnrecognizedOption) || Contains(errorMessage, InvalidOption) {
        errorMessage := errorMessage + VersionHint;
      }
      return Error(errorMessage);
    }
    if run.stdout.Unparsable? {
      return Error(run.stdout.description);
    }
    var interfaces := run.stdout.interfaces.GetOr([]);
    if interfaces == [] {
      return Error(NoInterfacesText);
    }
    var interfacesWithTraffic := FilterInterfaces(interfaces);
    if interfacesWithTraffic == [] {
      return Message(NoTrafficText);
    }
    return Interfaces(interfacesWithTraffic);
  }

  /** A non-zero exit always gives an error that starts with the stripped
      standard error and carries the version hint exactly when that text
      mentions a rejected option. */
  lemma ToolFailureIsError(run: ToolRun)
    requires run.Completed? && run.returnCode != 0
    ensures Shape(run).Error?
    ensures var m := Strip(run.stderr);
      && |m| <= |Shape(run).error| && Shape(run).error[..|m|] == m
      && (MentionsBadOption(m) <==> Shape(run).error == m + VersionHint)
      && (!MentionsBadOption(m) <==> Shape(run).error == m)
  {
    var m := Strip(run.stderr);
    var t := Shape(run).error;
    if MentionsBadOption(m) {
      assert t == m + VersionHint;
      assert t != m;
    }
  }

  /** With exit code 0, a parsed document without interfaces gives the
      "no monitored interfaces" error. */
  lemma NoInterfacesIsError(run: ToolRun)
    requires Parsed(run) && Listed(run.stdout) == []
    ensures Shape(run) == Error(NoInterfacesText)
  {
  }

  /** With a non-empty interface list the payload is never an error: a
      message exactly when no interface has traffic, otherwise a non-empty
      list holding exactly the listed interfaces that have traffic. */
  lemma ListedInterfacesOutcome(run: ToolRun)
    requires Parsed(run) && Listed(run.stdout) != []
    ensures !Shape(run).Error?
    ensures Shape(run).Message? <==> forall k :: 0 <= k < |Listed(run.stdout)| ==> !HasTraffic(Listed(run.stdout)[k])
    ensures Shape(run).Message? ==> Shape(run).message == NoTrafficText
    ensures Shape(run).Interfaces? ==> Shape(run).interfaces != []
    ensures Shape(run).Interfaces? ==>
      forall x :: x in Shape(run).interfaces <==> x in Listed(run.stdout) && HasTraffic(x)
  {
    KeptEmpty(Listed(run.stdout));
    KeptMembers(Listed(run.stdout));
  }

  /** Every run falls into exactly one of the three payload shapes, and
      which one is decided by the run alone. */
  lemma PayloadCases(run: ToolRun)
    ensures Shape(run).Error? <==> !Parsed(run) || Listed(run.stdout) == []
    ensures Shape(run).Message? <==>
      && Parsed(run) && Listed(run.stdout) != []
      && forall k :: 0 <= k < |Listed(run.stdout)| ==> !HasTraffic(Listed(run.stdout)[k])
    ensures Shape(run).Interfaces? <==>
      && Parsed(run)
      && exists k :: 0 <= k < |Listed(run.stdout)| && HasTraffic(Listed(run.stdout)[k])
  {
    if Parsed(run) {
      KeptEmpty(Listed(run.stdout));
    }
  }

  /** Three interfaces of which the first has no traffic: the other two come
      back in their order. */
  lemma OrderIsKept()
    ensures
      var a := Interface("a", Some(TrafficStats(Some(Counters(Some(0), Some(0))), Some([Counters(None, Some(0))]))));
      var b := Interface("b", Some(TrafficStats(Some(Counters(Some(5), None)), None)));
      var c := Interface("c", Some(TrafficStats(None, Some([EmptyCounters, Counters(None, Some(7))]))));
      Shape(Completed(0, Document(Some([a, b, c])), "")) == Interfaces([b, c])
  {
    var a := Interface("a", Some(TrafficStats(Some(Counters(Some(0), Some(0))), Some([Counters(None, Some(0))]))));
    var b := Interface("b", Some(TrafficStats(Some(Counters(Some(5), None)), None)));
    var c := Interface("c", Some(TrafficStats(None, Some([EmptyCounters, Counters(None, Some(7))]))));
    assert !HasTraffic(a);
    assert HasTraffic(b);
    assert Active(DaysOf(c)[1]) && HasTraffic(c);
    assert [a, b, c][..2] == [a, b];
    assert [a, b][..1] == [a];
    assert Kept([a]) == [];
    assert Kept([a, b]) == [b];
    assert Kept([a, b, c]) == [b, c];
  }

  /** An old tool that rejects `--json`: the error keeps its text (without the
      trailing newline) and adds the version hint. */
  lemma RejectedOptionGetsHint()
    ensures var m := "vnstat: " + UnrecognizedOption + " '--json'";
      Shape(Completed(1, Unparsable(""), m + "\n")) == Error(m + VersionHint)
  {
    var head, tail := "vnstat: ", " '--json'";
    var m := head + UnrecognizedOption + tail;
    var err := m + "\n";
    assert err[0] == 'v';
    assert StripLeft(err) == err;
    assert err[..|err| - 1] == m;
    assert m[|m| - 1] == '\'';
    assert StripRight(err) == m;
    assert m[|head|..|head| + |UnrecognizedOption|] == UnrecognizedOption;
    assert OccursAt(m, UnrecognizedOption, |head|);
  }
}
