/** Values shared by every part of the model: bytes, identities and their order. */
module Identity {

  newtype Byte = x: int | 0 <= x < 256

  datatype Option<+T> = None | Some(value: T)

  type Bytes32 = s: seq<Byte> | |s| == 32 witness seq(32, _ => 0)

  /** A node identity is always exactly 32 bytes. */
  datatype NodeId = NodeId(bytes: Bytes32)

  /** A platform device address, kept as the bytes of a valid UTF-8 string. */
  datatype DeviceId = DeviceId(address: Utf8)

  type Utf8 = s: seq<Byte> | IsUtf8(s) witness []

  predicate Continuation(b: Byte) { 0x80 <= b <= 0xBF }

  /** Length of the well-formed UTF-8 sequence at the head of s (Unicode Standard, table 3-7), or 0. */
  function LeadingWidth(s: seq<Byte>): (w: nat)
    requires |s| > 0
    ensures w <= |s| && w <= 4
  {
    var b := s[0];
    if b <= 0x7F then 1
    else if 0xC2 <= b <= 0xDF && |s| >= 2 && Continuation(s[1]) then 2
    else if 0xE0 <= b <= 0xEF && |s| >= 3 && Continuation(s[1]) && Continuation(s[2])
            && (b == 0xE0 ==> s[1] >= 0xA0) && (b == 0xED ==> s[1] <= 0x9F) then 3
    else if 0xF0 <= b <= 0xF4 && |s| >= 4 && Continuation(s[1]) && Continuation(s[2]) && Continuation(s[3])
            && (b == 0xF0 ==> s[1] >= 0x90) && (b == 0xF4 ==> s[1] <= 0x8F) then 4
    else 0
  }

  predicate IsUtf8(s: seq<Byte>) {
    |s| == 0 || (LeadingWidth(s) > 0 && IsUtf8(s[LeadingWidth(s)..]))
  }

  /** Byte-wise lexicographic order: the key order of every ordered map over node ids. */
  predicate LexLess(a: seq<Byte>, b: seq<Byte>) {
    |b| > 0 && (|a| == 0 || a[0] < b[0] || (a[0] == b[0] && LexLess(a[1..], b[1..])))
  }

  predicate Before(a: NodeId, b: NodeId) { LexLess(a.bytes, b.bytes) }

  lemma {:induction false} LexTotal(a: seq<Byte>, b: seq<Byte>)
    ensures a == b || LexLess(a, b) || LexLess(b, a)
    ensures !(LexLess(a, b) && LexLess(b, a))
    ensures LexLess(a, b) ==> a != b
  {
    if |a| > 0 && |b| > 0 && a[0] == b[0] {
      LexTotal(a[1..], b[1..]);
      if a[1..] == b[1..] {
        assert a == [a[0]] + a[1..];
        assert b == [b[0]] + b[1..];
      }
    }
  }

  lemma {:induction false} LexTransitive(a: seq<Byte>, b: seq<Byte>, c: seq<Byte>)
    requires LexLess(a, b) && LexLess(b, c)
    ensures LexLess(a, c)
  {
    if |a| > 0 && a[0] == b[0] && b[0] == c[0] {
      LexTransitive(a[1..], b[1..], c[1..]);
    }
  }

  ghost predicate IsFirst(m: NodeId, s: set<NodeId>) {
    m in s && forall n :: n in s ==> n == m || Before(m, n)
  }

  /** Every non-empty finite set of node ids has a first element in map order, and only one. */
  lemma {:induction false} FirstExists(s: set<NodeId>)
    requires s != {}
    ensures exists m :: IsFirst(m, s)
    decreases |s|
  {
    var x :| x in s;
    var rest := s - {x};
    if rest == {} {
      assert s == {x};
      assert IsFirst(x, s);
    } else {
      FirstExists(rest);
      var m :| IsFirst(m, rest);
      LexTotal(x.bytes, m.bytes);
      if Before(m, x) {
        assert IsFirst(m, s);
      } else {
        forall n | n in s ensures n == x || Before(x, n) {
          if n in rest && n != m { LexTransitive(x.bytes, m.bytes, n.bytes); }
        }
        assert IsFirst(x, s);
      }
    }
  }

  lemma FirstUnique(a: NodeId, b: NodeId, s: set<NodeId>)
    requires IsFirst(a, s) && IsFirst(b, s)
    ensures a == b
  {
    LexTotal(a.bytes, b.bytes);
  }

  /** The node a walk over an ordered map meets first. */
  ghost function First(s: set<NodeId>): (m: NodeId)
    requires s != {}
    ensures IsFirst(m, s)
  {
    FirstExists(s);
    var m :| IsFirst(m, s);
    m
  }
}
