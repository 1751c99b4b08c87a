/** The template substitution engine of the set point delivery plugin
    (`SetPointDelivery::dataSubstitution`): a scan of the message for
    `$asset.datapoint$` references, each replaced by the text of a reading. */
module Substitution {
  import opened Wrappers
  import opened StdString
  import opened CNumeric
  import opened JsonTree

  /** snprintf into a 40-byte buffer keeps at most 39 characters. */
  const BUFFER_TEXT: nat := 39

  /** The text a resolved datapoint contributes: a string up to its first NUL
      (it is appended through a C string), a double as its `%f` text cut to
      the buffer, a 64-bit integer as `%ld`, anything else nothing. */
  function Render(v: Json, formatDouble: Float64 -> string): (r: string)
    ensures v.JString? ==> r == CStr(v.text)
    ensures v.JDouble? ==> |r| <= BUFFER_TEXT && |r| <= |formatDouble(v.d)| && r == formatDouble(v.d)[..|r|]
    ensures v.JDouble? ==> |r| == if |formatDouble(v.d)| < BUFFER_TEXT then |formatDouble(v.d)| else BUFFER_TEXT
    ensures IsInt64(v) ==> r == DecimalText(v.n)
    ensures !(v.JString? || v.JDouble? || IsInt64(v)) ==> r == ""
  {
    match v
    case JString(t) => CStr(t)
    case JDouble(d) => Substr(formatDouble(d), 0, BUFFER_TEXT)
    case JInt(n) => if IsInt64(v) then DecimalText(n) else ""
    case _ => ""
  }

  /** The `%ld` text of an integer reading is read back by strtol as the
      same integer, and starts with '-' exactly when it is negative. */
  lemma {:induction false} RenderedIntegerReadsBack(v: Json, formatDouble: Float64 -> string)
    requires IsInt64(v)
    ensures Strtol(Render(v, formatDouble)) == v.n
    ensures Render(v, formatDouble)[0] == '-' <==> v.n < 0
  {
    StrtolDecimalText(v.n);
  }

  /** A reference split at its first '.': the text before it names the
      asset, the text after it the datapoint. Without a '.', `p2 + 1` wraps
      to 0 and the whole reference names both. */
  function SplitReference(ref: string): (r: (string, string))
    requires Fits(ref)
    ensures '.' !in ref ==> r == (ref, ref)
    ensures '.' in ref ==> '.' !in r.0 && ref == r.0 + "." + r.1
  {
    var p2 := FindFirst(ref, '.', 0);
    FindFirstSkips(ref, '.', 0);
    if p2 == NPOS then
      SubstrRest(ref, 0, NPOS);
      (Substr(ref, 0, p2), Substr(ref, SizeInc(p2), NPOS))
    else
      SubstrAround(ref, p2);
      (Substr(ref, 0, p2), Substr(ref, SizeInc(p2), NPOS))
  }

  /** The reading for `datapoint` of `asset`, when the asset is present, is
      an object and has that datapoint. */
  function Reading(data: seq<(string, Json)>, asset: string, datapoint: string): (r: Option<Json>)
    ensures r.Some? <==> (exists points :: Lookup(data, asset) == Some(JObject(points))
                                          && Lookup(points, datapoint).Some?)
    ensures r.Some? ==> Lookup(Lookup(data, asset).value.members, datapoint) == r
  {
    match Lookup(data, asset)
    case Some(JObject(points)) => Lookup(points, datapoint)
    case _ => None
  }

  /** What one reference (the text between two '$') contributes. The names
      reach rapidjson through c_str(), so they end at a NUL. A missing asset,
      an asset that is not an object or a missing datapoint contributes nothing. */
  function ReferenceText(ref: string, data: seq<(string, Json)>, formatDouble: Float64 -> string): (r: string)
    requires Fits(ref)
    ensures Reading(data, CStr(SplitReference(ref).0), CStr(SplitReference(ref).1)).None? ==> r == ""
  {
    var (asset, datapoint) := SplitReference(ref);
    match Reading(data, CStr(asset), CStr(datapoint))
    case Some(v) => Render(v, formatDouble)
    case None => ""
  }

  /** Reference resolution against one set of readings, as a function value
      (a std::string is always shorter than npos, so the other branch is
      never taken). */
  function Resolver(data: seq<(string, Json)>, formatDouble: Float64 -> string): (resolve: string -> string)
    ensures forall ref | Fits(ref) :: resolve(ref) == ReferenceText(ref, data, formatDouble)
  {
    ref => if Fits(ref) then ReferenceText(ref, data, formatDouble) else ""
  }

  /** Whether the number of '$' at or after position `i` is even. */
  predicate EvenDollarsFrom(s: string, i: nat)
    decreases |s| - i
  {
    if i >= |s| then true
    else if s[i] == '$' then !EvenDollarsFrom(s, i + 1)
    else EvenDollarsFrom(s, i + 1)
  }

  /** Whether the '$' characters of a message pair up. */
  predicate EvenDollars(s: string)
  {
    EvenDollarsFrom(s, 0)
  }

  /** EvenDollarsFrom says what its name says: the count of '$' is even. */
  lemma {:induction false} EvenDollarsCount(s: string, i: nat)
    ensures EvenDollarsFrom(s, i) <==> CountFrom(s, '$', i) % 2 == 0
    decreases |s| - i
  {
    if i < |s| {
      EvenDollarsCount(s, i + 1);
    }
  }

  /** The parity ahead of `i` flips at the first '$'; with no '$' ahead it
      is even. */
  lemma {:induction false} ParityAtFound(s: string, i: nat)
    requires Fits(s)
    ensures FindFirst(s, '$', i) == NPOS ==> EvenDollarsFrom(s, i)
    ensures FindFirst(s, '$', i) != NPOS ==>
              (EvenDollarsFrom(s, i) <==> !EvenDollarsFrom(s, FindFirst(s, '$', i) + 1))
    decreases |s| - i
  {
    if i < |s| && s[i] != '$' {
      ParityAtFound(s, i + 1);
    }
  }

  /** From a scan position with an even number of '$' ahead, a '$' that opens
      a reference has a closing '$', and the count after it is even again. */
  lemma {:induction false} PairClosed(m: string, p1: nat, dstart: nat)
    requires Fits(m) && p1 <= |m| && EvenDollarsFrom(m, p1)
    requires dstart == FindFirst(m, '$', p1) != NPOS
    ensures FindFirst(m, '$', dstart + 1) != NPOS
    ensures EvenDollarsFrom(m, FindFirst(m, '$', dstart + 1) + 1)
  {
    ParityAtFound(m, p1);
    ParityAtFound(m, dstart + 1);
  }

  /** From a scan position with an odd number of '$' ahead, a reference
      that is closed leaves an odd number behind its closing '$'. */
  lemma {:induction false} UnpairedAdvance(m: string, p1: nat)
    requires Fits(m) && p1 <= |m| && !EvenDollarsFrom(m, p1)
    ensures FindFirst(m, '$', p1) != NPOS
    ensures FindFirst(m, '$', FindFirst(m, '$', p1) + 1) != NPOS ==>
              !EvenDollarsFrom(m, FindFirst(m, '$', FindFirst(m, '$', p1) + 1) + 1)
  {
    ParityAtFound(m, p1);
    ParityAtFound(m, FindFirst(m, '$', p1) + 1);
  }

  /** The scan from position `p1` with `rval` produced so far. Each pass
      appends the segment `message.substr(p1, dstart)` (a count equal to the
      absolute position of the '$', clamped at the end) and the text
      `resolve` gives the reference, then moves past the closing '$'; when
      no '$' is left the rest of the message is appended. A '$' without a
      partner sends the source loop back to position 0 for ever
      (UnmatchedDollarNeverEnds), so the scan has no result: None. */
  function Scan(m: string, resolve: string -> string, p1: nat, rval: string): (r: Option<string>)
    requires p1 <= |m|
    decreases |m| - p1
  {
    var dstart := FindFirst(m, '$', p1);
    if dstart == NPOS then Some(rval + Substr(m, p1, NPOS))
    else
      var dend := FindFirst(m, '$', dstart + 1);
      if dend == NPOS then None
      else Scan(m, resolve, dend + 1, rval + Substr(m, p1, dstart) + resolve(Substr(m, dstart + 1, dend - (dstart + 1))))
  }

  /** One pass of the scan: from `p1`, past the reference between the '$'
      at `dstart` and the '$' at `dend`, to `next` with `rval'` produced. */
  lemma {:induction false} ScanStep(m: string, resolve: string -> string, p1: nat, rval: string,
                 dstart: nat, dend: nat, next: nat, rval': string)
    requires p1 <= |m|
    requires dstart == FindFirst(m, '$', p1) != NPOS
    requires dend == FindFirst(m, '$', dstart + 1) != NPOS
    requires next == dend + 1
    requires rval' == rval + Substr(m, p1, dstart) + resolve(Substr(m, dstart + 1, dend - (dstart + 1)))
    ensures p1 < next <= |m|
    ensures Scan(m, resolve, p1, rval) == Scan(m, resolve, next, rval')
  {
  }

  /** A scan that has a result finds a closing '$' for every opening one. */
  lemma {:induction false} ScanClosed(m: string, resolve: string -> string, p1: nat, rval: string, dstart: nat)
    requires p1 <= |m| && Scan(m, resolve, p1, rval).Some?
    requires dstart == FindFirst(m, '$', p1) != NPOS
    ensures FindFirst(m, '$', dstart + 1) != NPOS
  {
  }

  /** A '$' without a partner ahead: the scan has no result. */
  lemma {:induction false} ScanUnclosed(m: string, resolve: string -> string, p1: nat, rval: string)
    requires p1 <= |m| && FindFirst(m, '$', p1) != NPOS
    requires FindFirst(m, '$', FindFirst(m, '$', p1) + 1) == NPOS
    ensures Scan(m, resolve, p1, rval).None?
  {
  }

  /** With no '$' ahead, the scan appends the rest of the message. */
  lemma {:induction false} ScanDone(m: string, resolve: string -> string, p1: nat, rval: string)
    requires p1 <= |m| && FindFirst(m, '$', p1) == NPOS
    ensures Scan(m, resolve, p1, rval) == Some(rval + Substr(m, p1, NPOS))
  {
  }

  /** Whether every '$' from `p1` on opens a reference that a later '$'
      closes, so that the scan from there reaches the end. */
  predicate Closes(m: string, p1: nat)
    requires p1 <= |m|
    decreases |m| - p1
  {
    var dstart := FindFirst(m, '$', p1);
    dstart == NPOS ||
    (var dend := FindFirst(m, '$', dstart + 1); dend != NPOS && Closes(m, dend + 1))
  }

  /** An even number of '$' ahead: every reference is closed. */
  lemma {:induction false} EvenCloses(m: string, p1: nat)
    requires Fits(m) && p1 <= |m| && EvenDollarsFrom(m, p1)
    ensures Closes(m, p1)
    decreases |m| - p1
  {
    var dstart := FindFirst(m, '$', p1);
    if dstart != NPOS {
      PairClosed(m, p1, dstart);
      EvenCloses(m, FindFirst(m, '$', dstart + 1) + 1);
    }
  }

  /** An odd number of '$' ahead: some reference is never closed. */
  lemma {:induction false} OddOpen(m: string, p1: nat)
    requires Fits(m) && p1 <= |m| && !EvenDollarsFrom(m, p1)
    ensures !Closes(m, p1)
    decreases |m| - p1
  {
    UnpairedAdvance(m, p1);
    var dend := FindFirst(m, '$', FindFirst(m, '$', p1) + 1);
    if dend != NPOS {
      OddOpen(m, dend + 1);
    }
  }

  /** The scan has a result exactly when every reference ahead is closed. */
  lemma {:induction false} ScanDefinedIffCloses(m: string, resolve: string -> string, p1: nat, rval: string)
    requires p1 <= |m|
    ensures Scan(m, resolve, p1, rval).Some? <==> Closes(m, p1)
    decreases |m| - p1
  {
    var dstart := FindFirst(m, '$', p1);
    if dstart == NPOS {
      ScanDone(m, resolve, p1, rval);
    } else {
      var dend := FindFirst(m, '$', dstart + 1);
      if dend == NPOS {
        ScanUnclosed(m, resolve, p1, rval);
      } else {
        var rval' := rval + Substr(m, p1, dstart) + resolve(Substr(m, dstart + 1, dend - (dstart + 1)));
        ScanStep(m, resolve, p1, rval, dstart, dend, dend + 1, rval');
        ScanDefinedIffCloses(m, resolve, dend + 1, rval');
      }
    }
  }

  /** The scan of a message has a result exactly when its '$' pair up. */
  lemma {:induction false} ScanDefinedIffEven(m: string, resolve: string -> string)
    requires Fits(m)
    ensures Scan(m, resolve, 0, "").Some? <==> EvenDollars(m)
  {
    ScanDefinedIffCloses(m, resolve, 0, "");
    if EvenDollars(m) {
      EvenCloses(m, 0);
    } else {
      OddOpen(m, 0);
    }
  }

  /** The message that a substitution over `data` produces from `m`, when
      the substitution ends. */
  function Expand(m: string, data: seq<(string, Json)>, formatDouble: Float64 -> string): (r: Option<string>)
    ensures Fits(m) ==> (r.Some? <==> EvenDollars(m))
  {
    if Fits(m) then
      ScanDefinedIffEven(m, Resolver(data, formatDouble));
      Scan(m, Resolver(data, formatDouble), 0, "")
    else
      Scan(m, Resolver(data, formatDouble), 0, "")
  }

  /** The scanning loop of `dataSubstitution`, with the lookup and formatting
      of one reference left to `resolve`. */
  method ScanTemplate(message: string, resolve: string -> string) returns (result: string)
    requires Fits(message) && EvenDollars(message)
    ensures Scan(message, resolve, 0, "") == Some(result)
  {
    ScanDefinedIffEven(message, resolve);
    var rval := "";
    var p1: nat := 0;
    var dstart := FindFirst(message, '$', p1);
    while dstart != NPOS
      invariant p1 <= |message|
      invariant dstart == FindFirst(message, '$', p1)
      invariant Scan(message, resolve, p1, rval) == Scan(message, resolve, 0, "")
      decreases |message| - p1
    {
      ScanClosed(message, resolve, p1, rval, dstart);
      ghost var p0, r0, d0 := p1, rval, dstart;
      rval := rval + Substr(message, p1, dstart);
      dstart := dstart + 1;
      var dend := FindFirst(message, '$', dstart);
      if dend != NPOS {
        var reference := Substr(message, dstart, dend - dstart);
        rval := rval + resolve(reference);
      }
      // An unterminated reference is only logged by the source; a scan
      // with a result never meets one.
      p1 := SizeInc(dend);
      ScanStep(message, resolve, p0, r0, d0, dend, p1, rval);
      dstart := FindFirst(message, '$', p1);
    }
    ScanDone(message, resolve, p1, rval);
    rval := rval + Substr(message, p1, NPOS);
    result := rval;
  }

  /** `dataSubstitution(message, obj)`: the new message. The source loop
      ends only when the '$' characters pair up (ScanEndsIffEven). */
  method DataSubstitution(message: string, data: seq<(string, Json)>, formatDouble: Float64 -> string)
    returns (result: string)
    requires Fits(message) && EvenDollars(message)
    ensures Expand(message, data, formatDouble) == Some(result)
  {
    result := ScanTemplate(message, Resolver(data, formatDouble));
  }

  lemma {:induction false} ScanWithoutReference(m: string, resolve: string -> string)
    requires Fits(m) && '$' !in m
    ensures Scan(m, resolve, 0, "") == Some(m)
  {
    assert FindFirst(m, '$', 0) == NPOS;
    ScanDone(m, resolve, 0, "");
    assert "" + Substr(m, 0, NPOS) == m;
  }

  /** A message without '$' comes back unchanged. */
  lemma {:induction false} NoReferenceUnchanged(m: string, data: seq<(string, Json)>, formatDouble: Float64 -> string)
    requires Fits(m) && '$' !in m
    ensures Expand(m, data, formatDouble) == Some(m)
  {
    ScanWithoutReference(m, Resolver(data, formatDouble));
  }

  /** Splitting `asset.datapoint` gives back the two names when the asset
      name has no '.'; the datapoint name may hold more of them. */
  lemma {:induction false} SplitReferenceOf(asset: string, datapoint: string)
    requires Fits(asset + "." + datapoint) && '.' !in asset
    ensures SplitReference(asset + "." + datapoint) == (asset, datapoint)
  {
    SplitAt(asset + "." + datapoint, asset, datapoint);
  }

  /** SplitReferenceOf, for a reference `ref` built from the two names. */
  lemma {:induction false} SplitAt(ref: string, asset: string, datapoint: string)
    requires ref == asset + "." + datapoint
    requires Fits(ref) && '.' !in asset
    ensures SplitReference(ref) == (asset, datapoint)
  {
    FindFirstIs(ref, '.', 0, |asset|);
    assert Substr(ref, 0, |asset|) == asset;
    SubstrRest(ref, |asset| + 1, NPOS);
    assert ref[|asset| + 1..] == datapoint;
  }

  /** The scan only ever appends to what it has produced. */
  lemma {:induction false} ScanExtends(m: string, resolve: string -> string, p1: nat, rval: string)
    requires p1 <= |m| && Scan(m, resolve, p1, rval).Some?
    ensures rval <= Scan(m, resolve, p1, rval).value
    decreases |m| - p1
  {
    var dstart := FindFirst(m, '$', p1);
    if dstart != NPOS {
      var dend := FindFirst(m, '$', dstart + 1);
      if dend != NPOS {
        var rval' := rval + Substr(m, p1, dstart) + resolve(Substr(m, dstart + 1, dend - (dstart + 1)));
        ScanStep(m, resolve, p1, rval, dstart, dend, dend + 1, rval');
        ScanExtends(m, resolve, dend + 1, rval');
      }
    }
  }

  /** The text before the first '$' is copied unchanged to the front of
      the result. */
  lemma {:induction false} LeadingTextKept(m: string, resolve: string -> string)
    requires Fits(m) && Scan(m, resolve, 0, "").Some?
    requires FindFirst(m, '$', 0) != NPOS
    ensures m[..FindFirst(m, '$', 0)] <= Scan(m, resolve, 0, "").value
  {
    ScanClosed(m, resolve, 0, "", FindFirst(m, '$', 0));
    LeadingTextKeptAt(m, resolve, FindFirst(m, '$', 0), FindFirst(m, '$', FindFirst(m, '$', 0) + 1));
  }

  /** LeadingTextKept, with the first reference's '$' at `dstart` and `dend`. */
  lemma {:induction false} LeadingTextKeptAt(m: string, resolve: string -> string, dstart: nat, dend: nat)
    requires Fits(m) && Scan(m, resolve, 0, "").Some?
    requires dstart == FindFirst(m, '$', 0) != NPOS
    requires dend == FindFirst(m, '$', dstart + 1) != NPOS
    ensures m[..dstart] <= Scan(m, resolve, 0, "").value
  {
    var first := "" + Substr(m, 0, dstart) + resolve(Substr(m, dstart + 1, dend - (dstart + 1)));
    FirstPassKept(m, resolve, dstart, dend, first);
    LeadingPrefix(m, dstart, first, Scan(m, resolve, 0, "").value);
  }

  /** What the first pass produces stays at the front of the result. */
  lemma {:induction false} FirstPassKept(m: string, resolve: string -> string, dstart: nat, dend: nat, first: string)
    requires Scan(m, resolve, 0, "").Some?
    requires dstart == FindFirst(m, '$', 0) != NPOS
    requires dend == FindFirst(m, '$', dstart + 1) != NPOS
    requires first == "" + Substr(m, 0, dstart) + resolve(Substr(m, dstart + 1, dend - (dstart + 1)))
    ensures first <= Scan(m, resolve, 0, "").value
  {
    ScanStep(m, resolve, 0, "", dstart, dend, dend + 1, first);
    ScanExtends(m, resolve, dend + 1, first);
  }

  /** The first segment, the text before the first '$', is a prefix of
      whatever starts with the first pass's output. */
  lemma {:induction false} LeadingPrefix(m: string, dstart: nat, first: string, v: string)
    requires dstart <= |m|
    requires Substr(m, 0, dstart) <= first <= v
    ensures m[..dstart] <= v
  {
    assert Substr(m, 0, dstart) == m[..dstart];
  }

  /** A message that is one reference becomes what `resolve` gives for it. */
  lemma {:induction false} ScanSingleReference(ref: string, resolve: string -> string)
    requires Fits("$" + ref + "$") && '$' !in ref
    ensures Scan("$" + ref + "$", resolve, 0, "") == Some(resolve(ref))
  {
    var m := "$" + ref + "$";
    FindFirstIs(m, '$', 0, 0);
    FindFirstIs(m, '$', 1, |ref| + 1);
    assert Substr(m, 1, |ref|) == ref;
    var rval' := "" + Substr(m, 0, 0) + resolve(ref);
    assert rval' == resolve(ref);
    ScanStep(m, resolve, 0, "", 0, |ref| + 1, |ref| + 2, rval');
    ScanDone(m, resolve, |ref| + 2, rval');
    assert rval' + Substr(m, |ref| + 2, NPOS) == resolve(ref);
  }

  /** A message that is one reference becomes the text of that reference. */
  lemma {:induction false} SingleReference(ref: string, data: seq<(string, Json)>, formatDouble: Float64 -> string)
    requires Fits("$" + ref + "$") && '$' !in ref
    ensures Expand("$" + ref + "$", data, formatDouble) == Some(ReferenceText(ref, data, formatDouble))
  {
    ScanSingleReference(ref, Resolver(data, formatDouble));
  }

  /** The text of the reference `asset.datapoint`: the rendered reading, or
      nothing when the asset or the datapoint is missing. */
  lemma {:induction false} ReferenceTextOf(asset: string, datapoint: string, data: seq<(string, Json)>,
                        formatDouble: Float64 -> string)
    requires Fits(asset + "." + datapoint) && '.' !in asset
    ensures ReferenceText(asset + "." + datapoint, data, formatDouble) ==
            match Reading(data, CStr(asset), CStr(datapoint))
            case Some(v) => Render(v, formatDouble)
            case None => ""
  {
    SplitReferenceOf(asset, datapoint);
  }

  /** `$asset.datapoint$` becomes the rendered reading, or nothing when the
      asset or the datapoint is missing. */
  lemma {:induction false} DatapointReference(asset: string, datapoint: string, data: seq<(string, Json)>,
                           formatDouble: Float64 -> string)
    requires Fits("$" + (asset + "." + datapoint) + "$")
    requires '.' !in asset && '$' !in asset && '$' !in datapoint
    ensures Expand("$" + (asset + "." + datapoint) + "$", data, formatDouble) ==
            Some(match Reading(data, CStr(asset), CStr(datapoint))
                 case Some(v) => Render(v, formatDouble)
                 case None => "")
  {
    SingleReference(asset + "." + datapoint, data, formatDouble);
    ReferenceTextOf(asset, datapoint, data, formatDouble);
  }

  /** The segment after a reference is taken with a count equal to the
      position of the next '$', not the distance to it: "$a$xy$b$" becomes
      the text for `a`, then "xy$b$", then the text for `b`. */
  lemma {:induction false} SegmentCountIsPosition(resolve: string -> string)
    ensures Scan("$a$xy$b$", resolve, 0, "") == Some(resolve("a") + "xy$b$" + resolve("b"))
  {
    SegmentCountAt("$a$xy$b$", resolve);
  }

  /** SegmentCountIsPosition, for a message `m` known to be "$a$xy$b$". */
  lemma {:induction false} SegmentCountAt(m: string, resolve: string -> string)
    requires m == "$a$xy$b$"
    ensures Scan(m, resolve, 0, "") == Some(resolve("a") + "xy$b$" + resolve("b"))
  {
    SegmentMarks(m);
    SegmentTexts(m);
    var first := "" + Substr(m, 0, 0) + resolve(Substr(m, 1, 1));
    var second := first + Substr(m, 3, 5) + resolve(Substr(m, 6, 1));
    ScanStep(m, resolve, 0, "", 0, 2, 3, first);
    ScanStep(m, resolve, 3, first, 5, 7, 8, second);
    ScanDone(m, resolve, 8, second);
    assert first == resolve("a");
    assert second + Substr(m, 8, NPOS) == resolve("a") + "xy$b$" + resolve("b");
  }

  /** Where the scan of "$a$xy$b$" finds its '$'. */
  lemma {:induction false} SegmentMarks(m: string)
    requires m == "$a$xy$b$"
    ensures FindFirst(m, '$', 0) == 0 && FindFirst(m, '$', 1) == 2
    ensures FindFirst(m, '$', 3) == 5 && FindFirst(m, '$', 6) == 7
    ensures FindFirst(m, '$', 8) == NPOS
  {
    FindFirstIs(m, '$', 0, 0);
    FindFirstIs(m, '$', 1, 2);
    FindFirstIs(m, '$', 3, 5);
    FindFirstIs(m, '$', 6, 7);
  }

  /** The pieces the scan of "$a$xy$b$" cuts out. */
  lemma {:induction false} SegmentTexts(m: string)
    requires m == "$a$xy$b$"
    ensures Substr(m, 0, 0) == "" && Substr(m, 1, 1) == "a"
    ensures Substr(m, 3, 5) == "xy$b$" && Substr(m, 6, 1) == "b"
    ensures Substr(m, 8, NPOS) == ""
  {
  }

  // ---- Termination of the scan -------------------------------------------

  /** The loop condition at scan position `p1`: there is a '$' ahead. */
  predicate Scanning(m: string, p1: nat)
    requires Fits(m)
  {
    FindFirst(m, '$', p1) != NPOS
  }

  /** The scan position after one pass of the loop body: just past the
      closing '$', or `npos + 1`, which is 0, when there is none. */
  function NextPosition(m: string, p1: nat): (r: nat)
    requires Fits(m) && p1 <= |m| && Scanning(m, p1)
    ensures r <= |m|
    ensures r == 0 || p1 < r
  {
    SizeInc(FindFirst(m, '$', FindFirst(m, '$', p1) + 1))
  }

  /** The scan position after `n` passes (or when the loop has stopped). */
  function PositionAfter(m: string, p1: nat, n: nat): (r: nat)
    requires Fits(m) && p1 <= |m|
    ensures r <= |m|
    decreases n
  {
    if n == 0 || !Scanning(m, p1) then p1
    else PositionAfter(m, NextPosition(m, p1), n - 1)
  }

  /** With an odd number of '$' in the message and ahead of the scan, the
      loop goes round again and an odd number is still ahead afterwards. */
  lemma {:induction false} UnmatchedStep(m: string, p1: nat)
    requires Fits(m) && p1 <= |m|
    requires !EvenDollars(m) && !EvenDollarsFrom(m, p1)
    ensures Scanning(m, p1)
    ensures !EvenDollarsFrom(m, NextPosition(m, p1))
  {
    ParityAtFound(m, p1);
    ParityAtFound(m, FindFirst(m, '$', p1) + 1);
  }

  lemma {:induction false} UnmatchedForever(m: string, p1: nat, n: nat)
    requires Fits(m) && p1 <= |m|
    requires !EvenDollars(m) && !EvenDollarsFrom(m, p1)
    ensures Scanning(m, PositionAfter(m, p1, n))
    decreases n
  {
    UnmatchedStep(m, p1);
    if n > 0 {
      UnmatchedForever(m, NextPosition(m, p1), n - 1);
    }
  }

  /** A message with an odd number of '$' never leaves the loop: the
      unmatched '$' sends the scan back to the start, for ever. */
  lemma {:induction false} UnmatchedDollarNeverEnds(m: string)
    requires Fits(m) && !EvenDollars(m)
    ensures forall n: nat :: Scanning(m, PositionAfter(m, 0, n))
  {
    forall n: nat
      ensures Scanning(m, PositionAfter(m, 0, n))
    {
      UnmatchedForever(m, 0, n);
    }
  }

  /** With the '$' ahead paired up, the loop stops after one pass per pair. */
  lemma {:induction false} MatchedEnds(m: string, p1: nat)
    requires Fits(m) && p1 <= |m| && EvenDollarsFrom(m, p1)
    ensures !Scanning(m, PositionAfter(m, p1, CountFrom(m, '$', p1) / 2))
    decreases |m| - p1
  {
    if Scanning(m, p1) {
      var dstart := FindFirst(m, '$', p1);
      PairClosed(m, p1, dstart);
      CountAtFound(m, '$', p1);
      CountAtFound(m, '$', dstart + 1);
      MatchedEnds(m, NextPosition(m, p1));
    }
  }

  /** The scan of a message ends exactly when its '$' characters pair up. */
  lemma {:induction false} ScanEndsIffEven(m: string)
    requires Fits(m)
    ensures (exists n: nat :: !Scanning(m, PositionAfter(m, 0, n))) <==> EvenDollars(m)
  {
    if EvenDollars(m) {
      MatchedEnds(m, 0);
    } else {
      UnmatchedDollarNeverEnds(m);
    }
  }
}
