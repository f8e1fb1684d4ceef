/** The names under which answers are downloaded: `answer_q{id}_{ts}.txt` for
    a text answer (script.js:103) and `audio_q{id}_{ts}.webm` for a recording
    (script.js:133), where `ts` is the value of Date.now(). The partner is a
    parser that recovers the kind, the question id and the timestamp. */
module FileNames {
  import opened Options
  import opened Decimal

  datatype Kind = TextAnswer | AudioAnswer

  datatype FileTag = FileTag(kind: Kind, id: int, stamp: nat)

  function Prefix(k: Kind): string
  {
    match k
    case TextAnswer => "answer_q"
    case AudioAnswer => "audio_q"
  }

  function Extension(k: Kind): string
  {
    match k
    case TextAnswer => ".txt"
    case AudioAnswer => ".webm"
  }

  /** The download name of an answer of kind k to question id, saved at ts. */
  function FileName(k: Kind, id: int, ts: nat): (r: string)
    ensures |Prefix(k)| + |Extension(k)| < |r| && Prefix(k) <= r
  {
    Prefix(k) + IntToDecimal(id) + "_" + NatToDecimal(ts) + Extension(k)
  }

  /** The part of s before its first `_` and the part after it. */
  function SplitAtUnderscore(s: string): Option<(string, string)>
  {
    if s == [] then None
    else if s[0] == '_' then Some(([], s[1..]))
    else
      var t := SplitAtUnderscore(s[1..]);
      if t.None? then None else Some(([s[0]] + t.value.0, t.value.1))
  }

  function KindOf(f: string): Option<Kind>
  {
    if Prefix(TextAnswer) <= f then Some(TextAnswer)
    else if Prefix(AudioAnswer) <= f then Some(AudioAnswer)
    else None
  }

  /** Reads kind, id and timestamp back out of a download name. */
  function ParseFileName(f: string): Option<FileTag>
  {
    var k := KindOf(f);
    if k.None? then None
    else
      var split := SplitAtUnderscore(f[|Prefix(k.value)|..]);
      if split.None? then None
      else
        var (idPart, tail) := split.value;
        var ext := Extension(k.value);
        if |tail| < |ext| || tail[|tail| - |ext|..] != ext then None
        else
          var id, ts := ParseInt(idPart), ParseNat(tail[..|tail| - |ext|]);
          if id.None? || ts.None? then None else Some(FileTag(k.value, id.value, ts.value))
  }

  lemma {:induction false} SplitAtFirstUnderscore(a: string, b: string)
    requires forall k :: 0 <= k < |a| ==> a[k] != '_'
    ensures SplitAtUnderscore(a + "_" + b) == Some((a, b))
  {
    if a == [] {
      assert a + "_" + b == "_" + b;
    } else {
      assert (a + "_" + b)[1..] == a[1..] + "_" + b;
      SplitAtFirstUnderscore(a[1..], b);
      assert [a[0]] + a[1..] == a;
    }
  }

  /** A download name records its kind, question id and timestamp. */
  lemma FileNameRoundTrip(k: Kind, id: int, ts: nat)
    ensures ParseFileName(FileName(k, id, ts)) == Some(FileTag(k, id, ts))
  {
    var f := FileName(k, id, ts);
    var p, i, t, e := Prefix(k), IntToDecimal(id), NatToDecimal(ts), Extension(k);
    assert f == p + (i + "_" + (t + e));
    assert p <= f;
    if k == AudioAnswer {
      assert f[1] == 'u';
      assert !(Prefix(TextAnswer) <= f);
    }
    assert KindOf(f) == Some(k);
    assert f[|p|..] == i + "_" + (t + e);
    SplitAtFirstUnderscore(i, t + e);
    assert (t + e)[|t + e| - |e|..] == e;
    assert (t + e)[..|t + e| - |e|] == t;
    IntRoundTrip(id);
    NatRoundTrip(ts);
  }

  /** Two saves produce the same name only for the same kind of answer to
      the same question at the same millisecond. */
  lemma FileNameInjective(k1: Kind, id1: int, ts1: nat, k2: Kind, id2: int, ts2: nat)
    requires FileName(k1, id1, ts1) == FileName(k2, id2, ts2)
    ensures k1 == k2 && id1 == id2 && ts1 == ts2
  {
    FileNameRoundTrip(k1, id1, ts1);
    FileNameRoundTrip(k2, id2, ts2);
  }
}
