/** The session parameters: the validity test of configure and the text form
    that processConfigCommand reads (src/nback_task.cpp). */
module Config {
  import opened Text
  import opened DataCollection

  /** The parameters configure accepts, with the C types of its signature. */
  datatype ConfigRequest = ConfigRequest(
    stimDuration: uint16,
    interStimulusInterval: uint16,
    nBackLevel: uint8,
    numTrials: uint8,
    studyId: string,
    sessionNumber: uint16)

  const MIN_DURATION: nat := 100
  const MIN_TRIALS: nat := 5
  const MAX_CONFIG_TRIALS: nat := 50

  /** The parameter test at the head of configure. */
  predicate ParametersValid(r: ConfigRequest)
  {
    r.stimDuration >= MIN_DURATION && r.interStimulusInterval >= MIN_DURATION && r.nBackLevel >= 1
    && MIN_TRIALS <= r.numTrials <= MAX_CONFIG_TRIALS && |r.studyId| > 0
  }

  /** A request that passes the test fits the collector's log. */
  lemma ValidTrialsFitLog(r: ConfigRequest)
    requires ParametersValid(r)
    ensures 1 <= r.numTrials <= MAX_DATA_ROWS
  {
  }

  // ---------------------------------------------------------------------------
  // processConfigCommand's reading of the text after "config "
  // ---------------------------------------------------------------------------

  /** The comma-terminated fields at the head of s, at most `limit` of them, and
      the text after the last comma read. */
  function CommaFields(s: string, limit: nat): (r: (seq<string>, string))
    ensures |r.0| <= limit
    decreases limit
  {
    if limit == 0 then ([], s)
    else
      var c := IndexOf(s, ',', 0);
      if c < 0 then ([], s)
      else
        var rest := CommaFields(s[c + 1..], limit - 1);
        ([s[..c]] + rest.0, rest.1)
  }

  /** CommaFields read in place: the fields of s starting at position `from`. */
  function CommaFieldsFrom(s: string, from: nat, limit: nat): (r: (seq<string>, string))
    requires from <= |s|
    ensures |r.0| <= limit
    decreases limit
  {
    if limit == 0 then ([], s[from..])
    else
      var c := IndexOf(s, ',', from);
      if c < 0 then ([], s[from..])
      else
        var rest := CommaFieldsFrom(s, c + 1, limit - 1);
        ([s[from..c]] + rest.0, rest.1)
  }

  /** Reading in place agrees with reading the suffix. */
  lemma {:induction false} CommaFieldsFromSuffix(s: string, from: nat, limit: nat)
    requires from <= |s|
    ensures CommaFieldsFrom(s, from, limit) == CommaFields(s[from..], limit)
    decreases limit
  {
    if limit > 0 {
      IndexOfSuffix(s, ',', from, from);
      var c := IndexOf(s, ',', from);
      if c >= 0 {
        CommaFieldsFromSuffix(s, c + 1, limit - 1);
        CommaFieldsFromSuffixStep(s, from, limit, c);
      }
    }
  }

  /** One field of the induction: both readings find the same comma. */
  lemma CommaFieldsFromSuffixStep(s: string, from: nat, limit: nat, c: nat)
    requires from <= c < |s| && limit > 0 && c == IndexOf(s, ',', from)
    requires IndexOf(s[from..], ',', 0) == c - from
    requires CommaFieldsFrom(s, c + 1, limit - 1) == CommaFields(s[c + 1..], limit - 1)
    ensures CommaFieldsFrom(s, from, limit) == CommaFields(s[from..], limit)
  {
    var d := c - from;
    var t := s[from..];
    SliceOfSlice(s, from, d);
    CommaFieldsFromUnfold(s, from, limit, c);
    CommaFieldsUnfold(t, limit, d);
    var rest := CommaFieldsFrom(s, c + 1, limit - 1);
    assert CommaFields(t[d + 1..], limit - 1) == rest by {
      assert t[d + 1..] == s[c + 1..];
    }
    assert t[..d] == s[from..c];
    assert CommaFields(t, limit) == ([s[from..c]] + rest.0, rest.1);
  }

  /** Slicing a suffix again is slicing the whole text. */
  lemma SliceOfSlice(s: string, from: nat, d: nat)
    requires from + d < |s|
    ensures s[from..][d + 1..] == s[from + d + 1..] && s[from..][..d] == s[from..from + d]
  {
  }

  lemma CommaFieldsFromUnfold(s: string, from: nat, limit: nat, c: nat)
    requires from <= |s| && limit > 0 && c == IndexOf(s, ',', from)
    ensures from <= c < |s|
    ensures var rest := CommaFieldsFrom(s, c + 1, limit - 1);
      CommaFieldsFrom(s, from, limit) == ([s[from..c]] + rest.0, rest.1)
  {
  }

  lemma CommaFieldsUnfold(s: string, limit: nat, c: nat)
    requires limit > 0 && c == IndexOf(s, ',', 0)
    ensures c < |s|
    ensures var rest := CommaFields(s[c + 1..], limit - 1);
      CommaFields(s, limit) == ([s[..c]] + rest.0, rest.1)
  {
  }

  /** The text between the first '%' of s and the next one, if both are there. */
  function PercentList(s: string): Option<string>
  {
    var a := IndexOf(s, '%', 0);
    if a < 0 then None
    else
      var b := IndexOf(s, '%', a + 1);
      if b < 0 then None else Some(s[a + 1..b])
  }

  /** What processConfigCommand reads: the request when six comma-terminated
      fields are present, and the custom colour list when one is given. */
  datatype ConfigText = ConfigText(request: Option<ConfigRequest>, colorList: Option<string>)

  /** The four numbers go through uint16_t params[]; the n-back level and the
      trial count are then narrowed again to configure's uint8_t parameters. */
  function RequestOf(f: seq<string>): (r: ConfigRequest)
    requires |f| == 6
    ensures r.studyId == f[4]
  {
    ConfigRequest(U16(ToInt(f[0])), U16(ToInt(f[1])), U8(U16(ToInt(f[2]))), U8(U16(ToInt(f[3]))), f[4], U16(ToInt(f[5])))
  }

  function ParseConfig(configStr: string): ConfigText
  {
    var (fields, rest) := CommaFields(configStr, 6);
    ConfigText(if |fields| == 6 then Some(RequestOf(fields)) else None, PercentList(rest))
  }

  /** The fields followed each by a comma. */
  function Terminated(fields: seq<string>): (s: string)
  {
    if fields == [] then "" else fields[0] + "," + Terminated(fields[1..])
  }

  predicate CommaFree(s: string) { ',' !in s }

  lemma TerminatedStep(fields: seq<string>, tail: string)
    requires |fields| >= 1 && CommaFree(fields[0])
    ensures var s := Terminated(fields) + tail;
      IndexOf(s, ',', 0) == |fields[0]| && s[..|fields[0]|] == fields[0]
      && s[|fields[0]| + 1..] == Terminated(fields[1..]) + tail
  {
    var f := fields[0];
    var s := Terminated(fields) + tail;
    assert s == f + [','] + (Terminated(fields[1..]) + tail);
    assert s[|f|] == ',';
    assert forall i :: 0 <= i < |f| ==> s[i] == f[i];
    IndexOfAt(s, ',', 0, |f|);
  }

  /** A first field written before the others is read before them. */
  lemma CommaFieldsStep(fields: seq<string>, tail: string, limit: nat)
    requires |fields| >= 1 && CommaFree(fields[0]) && limit >= 1
    requires CommaFields(Terminated(fields[1..]) + tail, limit - 1) == (fields[1..], tail)
    ensures CommaFields(Terminated(fields) + tail, limit) == (fields, tail)
  {
    var s := Terminated(fields) + tail;
    var c := |fields[0]|;
    TerminatedStep(fields, tail);
    var rest := CommaFields(s[c + 1..], limit - 1);
    assert CommaFields(s, limit) == ([s[..c]] + rest.0, rest.1);
    assert fields == [fields[0]] + fields[1..];
  }

  /** Reading exactly as many fields as were written gives them back, whatever follows. */
  lemma {:induction false} CommaFieldsOfTerminated(fields: seq<string>, tail: string)
    requires forall k :: 0 <= k < |fields| ==> CommaFree(fields[k])
    ensures CommaFields(Terminated(fields) + tail, |fields|) == (fields, tail)
    decreases |fields|
  {
    var s := Terminated(fields) + tail;
    if |fields| == 0 {
      assert s == tail;
    } else {
      CommaFieldsOfTerminated(fields[1..], tail);
      CommaFieldsStep(fields, tail, |fields|);
    }
  }

  /** When fewer fields were written than asked for and no comma follows, the
      reading stops after the last of them. */
  lemma {:induction false} CommaFieldsOfShort(fields: seq<string>, tail: string, limit: nat)
    requires forall k :: 0 <= k < |fields| ==> CommaFree(fields[k])
    requires CommaFree(tail) && |fields| < limit
    ensures CommaFields(Terminated(fields) + tail, limit) == (fields, tail)
    decreases |fields|
  {
    var s := Terminated(fields) + tail;
    if |fields| == 0 {
      assert s == tail;
      IndexOfNone(tail, ',', 0);
    } else {
      CommaFieldsOfShort(fields[1..], tail, limit - 1);
      CommaFieldsStep(fields, tail, limit);
    }
  }

  /** The six fields of a request as the host prints them. */
  function RequestFields(r: ConfigRequest): (f: seq<string>)
    ensures |f| == 6
  {
    [NatToString(r.stimDuration), NatToString(r.interStimulusInterval), NatToString(r.nBackLevel),
     NatToString(r.numTrials), r.studyId, NatToString(r.sessionNumber)]
  }

  lemma RequestFieldsCommaFree(r: ConfigRequest)
    requires CommaFree(r.studyId)
    ensures forall k :: 0 <= k < 6 ==> CommaFree(RequestFields(r)[k])
  {
    var f := RequestFields(r);
    DigitsHaveNo(f[0], ',');
    DigitsHaveNo(f[1], ',');
    DigitsHaveNo(f[2], ',');
    DigitsHaveNo(f[3], ',');
    DigitsHaveNo(f[5], ',');
  }

  lemma NarrowSmall(x: int, k: int)
    requires 0 < k && 0 <= x < k
    ensures x % k == x
  {
    DivModUnique(x, k, 0, x);
  }

  /** A printed uint16_t value is read back unchanged through the uint16_t parameter array. */
  lemma PrintedUint16(x: uint16)
    ensures U16(ToInt(NatToString(x))) == x
  {
    ToIntOfNatToString(x);
    assert ToInt(NatToString(x)) == x;
    NarrowSmall(x, 0x1_0000);
  }

  /** A printed uint8_t value survives both narrowings. */
  lemma PrintedUint8(x: uint8)
    ensures U8(U16(ToInt(NatToString(x)))) == x
  {
    PrintedUint16(x);
    NarrowSmall(x, 0x100);
  }

  lemma RequestOfRequestFields(r: ConfigRequest)
    ensures RequestOf(RequestFields(r)) == r
  {
    var f := RequestFields(r);
    PrintedUint16(r.stimDuration);
    PrintedUint16(r.interStimulusInterval);
    PrintedUint8(r.nBackLevel);
    PrintedUint8(r.numTrials);
    PrintedUint16(r.sessionNumber);
    assert RequestOf(f) == ConfigRequest(U16(ToInt(f[0])), U16(ToInt(f[1])), U8(U16(ToInt(f[2]))), U8(U16(ToInt(f[3]))), f[4], U16(ToInt(f[5])));
  }

  /** The text the host sends after "config ": six comma-terminated fields,
      then the colour list between '%' signs. */
  function ConfigLine(r: ConfigRequest, colorList: string): string
  {
    Terminated(RequestFields(r)) + "%" + colorList + "%"
  }

  /** A list written between two '%' signs, holding none itself, is read back. */
  lemma PercentListOfFramed(colorList: string)
    requires '%' !in colorList
    ensures PercentList("%" + colorList + "%") == Some(colorList)
  {
    var t := "%" + colorList + "%";
    assert IndexOf(t, '%', 0) == 0;
    assert forall i :: 1 <= i < 1 + |colorList| ==> t[i] == colorList[i - 1];
    IndexOfAt(t, '%', 1, 1 + |colorList|);
    assert t[1..1 + |colorList|] == colorList;
  }

  /** processConfigCommand reads back the request and the colour list the host wrote. */
  lemma ConfigLineRoundTrip(r: ConfigRequest, colorList: string)
    requires CommaFree(r.studyId) && '%' !in colorList
    ensures ParseConfig(ConfigLine(r, colorList)) == ConfigText(Some(r), Some(colorList))
  {
    ConfigLineFields(r, colorList);
    RequestOfRequestFields(r);
    PercentListOfFramed(colorList);
    ParseConfigOf(ConfigLine(r, colorList), RequestFields(r), "%" + colorList + "%", r, colorList);
  }

  /** The six fields of a config line are read back with the framed list after them. */
  lemma ConfigLineFields(r: ConfigRequest, colorList: string)
    requires CommaFree(r.studyId)
    ensures CommaFields(ConfigLine(r, colorList), 6) == (RequestFields(r), "%" + colorList + "%")
  {
    var tail := "%" + colorList + "%";
    RequestFieldsCommaFree(r);
    CommaFieldsOfTerminated(RequestFields(r), tail);
    assert ConfigLine(r, colorList) == Terminated(RequestFields(r)) + tail;
  }

  lemma ParseConfigOf(configStr: string, fields: seq<string>, rest: string, r: ConfigRequest, colorList: string)
    requires CommaFields(configStr, 6) == (fields, rest) && |fields| == 6
    requires RequestOf(fields) == r && PercentList(rest) == Some(colorList)
    ensures ParseConfig(configStr) == ConfigText(Some(r), Some(colorList))
  {
  }

  /** Without the comma after the session number the text is rejected: only five
      fields are read, so no request is formed. */
  lemma MissingFinalCommaRejected(r: ConfigRequest)
    requires CommaFree(r.studyId)
    ensures var f := RequestFields(r);
      ParseConfig(Terminated(f[..5]) + f[5]).request == None
  {
    var f := RequestFields(r);
    RequestFieldsCommaFree(r);
    assert forall k :: 0 <= k < 5 ==> f[..5][k] == f[k];
    CommaFieldsOfShort(f[..5], f[5], 6);
  }

  /** Every field read ends at a comma of its own. */
  lemma {:induction false} FieldsUseCommas(s: string, limit: nat)
    ensures |CommaFields(s, limit).0| <= multiset(s)[',']
    decreases limit
  {
    if limit > 0 {
      var c := IndexOf(s, ',', 0);
      if c >= 0 {
        FieldsUseCommas(s[c + 1..], limit - 1);
        CommaCounted(s, c);
        CommaFieldsUnfold(s, limit, c);
        assert |CommaFields(s, limit).0| == 1 + |CommaFields(s[c + 1..], limit - 1).0|;
      }
    }
  }

  /** The comma at c is one more than the text after it holds. */
  lemma CommaCounted(s: string, c: nat)
    requires c < |s| && s[c] == ','
    ensures multiset(s[c + 1..])[','] + 1 <= multiset(s)[',']
  {
    var head, tail := s[..c + 1], s[c + 1..];
    assert s == head + tail;
    assert head[c] == ',';
    assert ',' in multiset(head);
  }

  /** Text with fewer than six commas forms no request. */
  lemma FewCommasRejected(configStr: string)
    requires multiset(configStr)[','] < 6
    ensures ParseConfig(configStr).request == None
  {
    FieldsUseCommas(configStr, 6);
  }
}
