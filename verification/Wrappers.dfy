/** Optional columns, Python truthiness of optional text, results of fallible steps, and text order. */
module Wrappers {

  datatype Option<+T> = None | Some(value: T)

  datatype Result<+T, +E> = Ok(value: T) | Err(error: E)

  /** Python treats both `None` and the empty string as false. */
  predicate Truthy(text: Option<string>) {
    text.Some? && text.value != ""
  }

  /** Python's `first or Some(second)` on optional text. */
  function OrElse(first: Option<string>, second: string): Option<string> {
    if Truthy(first) then first else Some(second)
  }

  /** Text order, by code point. */
  predicate TextBefore(a: string, b: string) {
    b != "" && (a == "" || a[0] < b[0] || (a[0] == b[0] && TextBefore(a[1..], b[1..])))
  }

  lemma {:induction false} TextOrder(a: string, b: string, c: string)
    ensures a != b ==> TextBefore(a, b) || TextBefore(b, a)
    ensures TextBefore(a, b) && TextBefore(b, c) ==> TextBefore(a, c)
    ensures !TextBefore(a, a)
  {
    if a != "" {
      TextOrder(a[1..], if b != "" then b[1..] else "", if c != "" then c[1..] else "");
      if b != "" && a[0] == b[0] && a[1..] == b[1..] {
        assert a == [a[0]] + a[1..] == b;
      }
    }
  }

  /** `a` is a proper beginning of `b`, or has the smaller character where they first differ. */
  ghost predicate SmallerText(a: string, b: string) {
    exists i :: 0 <= i <= |a| && i <= |b| && a[..i] == b[..i] && SmallerAt(a, b, i)
  }

  predicate SmallerAt(a: string, b: string, i: nat) { i < |b| && (i == |a| || (i < |a| && a[i] < b[i])) }

  lemma {:induction false} BeforeIsSmaller(a: string, b: string)
    ensures TextBefore(a, b) <==> SmallerText(a, b)
  {
    if b != "" && a != "" {
      BeforeIsSmaller(a[1..], b[1..]);
      if a[0] == b[0] && SmallerText(a[1..], b[1..]) {
        var i :| 0 <= i <= |a[1..]| && i <= |b[1..]| && a[1..][..i] == b[1..][..i] && SmallerAt(a[1..], b[1..], i);
        assert a[..i + 1] == [a[0]] + a[1..][..i] == b[..i + 1] && SmallerAt(a, b, i + 1);
      }
      if SmallerText(a, b) {
        var i :| 0 <= i <= |a| && i <= |b| && a[..i] == b[..i] && SmallerAt(a, b, i);
        if i > 0 {
          assert a[..i][0] == b[..i][0] && a[1..][..i - 1] == a[..i][1..] && b[1..][..i - 1] == b[..i][1..];
          assert SmallerAt(a[1..], b[1..], i - 1);
        } else {
          assert a[0] < b[0];
        }
      }
      if a[0] < b[0] {
        assert a[..0] == b[..0] && SmallerAt(a, b, 0);
      }
    } else if b != "" {
      assert a[..0] == b[..0] && SmallerAt(a, b, 0);
    }
  }

  lemma SmallerTextIff()
    ensures forall a, b :: TextBefore(a, b) <==> SmallerText(a, b)
  {
    forall a, b
      ensures TextBefore(a, b) <==> SmallerText(a, b)
    {
      BeforeIsSmaller(a, b);
    }
  }
}
