/** The part of the `dtb` crate that the tree builder sees: the structure items
    produced by `next_item`, and the two value classifiers of a property.
    The decoder itself (header checks, alignment, big-endian words) is not part
    of this model; the stream it yields and the classifiers' answers are inputs. */
module Dtb {
  import opened Options

  type byte = x: nat | x < 0x100
  type u32 = x: nat | x < 0x1_0000_0000

  /** One item of the devicetree structure block, as `dtb::StructItem`. */
  datatype StructItem =
    | BeginNode(name: string)
    | Property(name: string, value: seq<byte>)
    | EndNode

  /** What one call of `next_item` returns: an item, or an error. The error
      value is never looked at by the caller, so it carries no payload. */
  datatype Fetched = Ok(item: StructItem) | Err

  /** `value_str` and `value_u32_list` of a property: each either succeeds
      with a decoded value or fails. Their decoding rules live in the crate. */
  datatype Classifiers = Classifiers(
    valueStr: seq<byte> -> Option<string>,
    valueU32List: seq<byte> -> Option<seq<u32>>)

  /** Rows are created by `BeginNode` and `Property` items, not by `EndNode`. */
  predicate CreatesRow(item: StructItem) {
    !item.EndNode?
  }

  /** The items a `while let Ok(item) = items.next_item()` loop receives from
      `stream`: everything before the first `Err`. Running off the end of the
      sequence stops the loop as an `Err` would. */
  function Consumed(stream: seq<Fetched>): (items: seq<StructItem>)
    ensures |items| <= |stream|
    ensures forall j :: 0 <= j < |items| ==> stream[j] == Ok(items[j])
    ensures |items| == |stream| || stream[|items|].Err?
  {
    if stream == [] || stream[0].Err? then []
    else [stream[0].item] + Consumed(stream[1..])
  }

  /** Any prefix of `stream` made of `Ok` items is a prefix of what is consumed. */
  lemma ConsumedExtends(stream: seq<Fetched>, p: seq<StructItem>)
    requires |p| <= |stream|
    requires forall j :: 0 <= j < |p| ==> stream[j] == Ok(p[j])
    ensures |p| <= |Consumed(stream)|
    ensures Consumed(stream)[..|p|] == p
  {
    var c := Consumed(stream);
    assert forall j :: 0 <= j < |p| ==> stream[j] == Ok(c[j]) && c[j] == p[j];
  }

  /** A run of `Ok` items that ends with an `Err` or with the end of the stream
      is exactly what is consumed. */
  lemma ConsumedExactly(stream: seq<Fetched>, p: seq<StructItem>)
    requires |p| <= |stream|
    requires forall j :: 0 <= j < |p| ==> stream[j] == Ok(p[j])
    requires |p| == |stream| || stream[|p|].Err?
    ensures Consumed(stream) == p
  {
    ConsumedExtends(stream, p);
    var c := Consumed(stream);
    assert c == c[..|p|];
  }

  /** Nothing after the first `Err` is ever consumed: whatever follows it,
      the loop receives the same items. */
  lemma {:induction false} NothingAfterErr(good: seq<StructItem>, rest: seq<Fetched>)
    ensures Consumed(OkAll(good) + [Err] + rest) == good
  {
    if good != [] {
      assert (OkAll(good) + [Err] + rest)[1..] == OkAll(good[1..]) + [Err] + rest;
      NothingAfterErr(good[1..], rest);
    }
  }

  /** The stream that delivers `items` one by one without an error. */
  function OkAll(items: seq<StructItem>): (stream: seq<Fetched>)
    ensures |stream| == |items|
    ensures forall j :: 0 <= j < |items| ==> stream[j] == Ok(items[j])
  {
    if items == [] then [] else [Ok(items[0])] + OkAll(items[1..])
  }
}
