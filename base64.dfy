/** Whether Python's `base64.b64decode(s)` (no `validate`, standard alphabet)
    succeeds on a `str`. The string is first encoded as ASCII (a non-ASCII
    character raises `ValueError`), then `binascii.a2b_base64` in its
    non-strict mode scans it: characters outside the alphabet are skipped, a
    `=` ends the input once it completes a group of four, and otherwise the
    data characters must come to a whole number of groups of four. The scan
    follows CPython 3.11 and later. */
module Base64 {

  predicate IsAscii(c: char) {
    c < '\U{80}'
  }

  predicate InAlphabet(c: char) {
    ('A' <= c <= 'Z') || ('a' <= c <= 'z') || ('0' <= c <= '9') || c == '+' || c == '/'
  }

  /** The scan from a point where `quad` data characters of the current group
      have been read and `pads` padding characters have followed them. */
  function Scan(s: string, quad: nat, pads: nat): bool
    requires quad < 4
  {
    if s == "" then quad == 0
    else if s[0] == '=' then
      if quad >= 2 && quad + pads + 1 >= 4 then true
      else Scan(s[1..], quad, if quad >= 2 then pads + 1 else pads)
    else if InAlphabet(s[0]) then Scan(s[1..], (quad + 1) % 4, 0)
    else Scan(s[1..], quad, pads)
  }

  /** `b64decode(s)` returns instead of raising. */
  predicate Decodes(s: string) {
    && (forall k :: 0 <= k < |s| ==> IsAscii(s[k]))
    && Scan(s, 0, 0)
  }

  /** The number of base64 data characters in `s`. */
  function DataCount(s: string): nat {
    if s == "" then 0 else (if InAlphabet(s[0]) then 1 else 0) + DataCount(s[1..])
  }

  /** Without padding characters the scan succeeds exactly when the data
      characters fill whole groups of four. */
  lemma {:induction false} ScanWithoutPadding(s: string, quad: nat, pads: nat)
    requires quad < 4
    requires forall k :: 0 <= k < |s| ==> s[k] != '='
    ensures Scan(s, quad, pads) <==> (quad + DataCount(s)) % 4 == 0
  {
    if s != "" {
      if InAlphabet(s[0]) {
        ScanWithoutPadding(s[1..], (quad + 1) % 4, 0);
      } else {
        ScanWithoutPadding(s[1..], quad, pads);
      }
    }
  }

  /** An ASCII string without `=` decodes exactly when its count of base64
      data characters is a multiple of four, whatever else it holds. */
  lemma UnpaddedDecodes(s: string)
    requires forall k :: 0 <= k < |s| ==> s[k] != '=' && IsAscii(s[k])
    ensures Decodes(s) <==> DataCount(s) % 4 == 0
  {
    ScanWithoutPadding(s, 0, 0);
  }

  /** Data characters advance the group position and clear the padding count. */
  lemma {:induction false} ScanData(s: string, rest: string, quad: nat, pads: nat)
    requires quad < 4
    requires forall k :: 0 <= k < |s| ==> InAlphabet(s[k])
    ensures Scan(s + rest, quad, pads) == Scan(rest, (quad + |s|) % 4, if s == "" then pads else 0)
  {
    if s != "" {
      assert (s + rest)[1..] == s[1..] + rest;
      ScanData(s[1..], rest, (quad + 1) % 4, 0);
    } else {
      assert s + rest == rest;
    }
  }

  /** Canonical `b64encode` output decodes: whole groups of data characters,
      optionally ending in a group padded with `==` or `=`. */
  lemma CanonicalDecodes(body: string, tail: string)
    requires |body| % 4 == 0 && forall k :: 0 <= k < |body| ==> InAlphabet(body[k])
    requires || tail == ""
             || (|tail| == 4 && InAlphabet(tail[0]) && InAlphabet(tail[1]) && tail[2..] == "==")
             || (|tail| == 4 && InAlphabet(tail[0]) && InAlphabet(tail[1]) && InAlphabet(tail[2]) && tail[3] == '=')
    ensures Decodes(body + tail)
  {
    var s := body + tail;
    assert forall k :: 0 <= k < |s| ==> IsAscii(s[k]) by {
      forall k | 0 <= k < |s| ensures IsAscii(s[k]) {
        if k < |body| { assert s[k] == body[k]; } else { assert s[k] == tail[k - |body|]; }
      }
    }
    ScanData(body, tail, 0, 0);
    if tail != "" && tail[2] == '=' {
      ScanData(tail[..2], tail[2..], 0, 0);
      assert tail[..2] + tail[2..] == tail;
    } else if tail != "" {
      ScanData(tail[..3], tail[3..], 0, 0);
      assert tail[..3] + tail[3..] == tail;
    }
  }

  /** An ordinary caption with eight data characters decodes ... */
  lemma CaptionDecodes()
    ensures Decodes("Figure 12")
  {
    UnpaddedDecodes("Figure 12");
  }

  /** ... and one with six does not. */
  lemma ShortCaptionDoesNotDecode()
    ensures !Decodes("Table 2")
  {
    UnpaddedDecodes("Table 2");
  }
}
