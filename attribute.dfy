/**
 * `Wrapper::try_from`: reading a string out of a netCDF attribute value, a
 * tagged union with one variant per netCDF attribute type.
 */
module Attribute {
  import opened Wrappers

  /** The variants of the netCDF crate's attribute value; numeric payloads are kept as unbounded numbers. */
  datatype AttrValue =
    | Uchar(uchar: int) | Uchars(uchars: seq<int>)
    | Schar(schar: int) | Schars(schars: seq<int>)
    | Ushort(ushort: int) | Ushorts(ushorts: seq<int>)
    | Short(short: int) | Shorts(shorts: seq<int>)
    | Uint(uint: int) | Uints(uints: seq<int>)
    | Int(int32: int) | Ints(int32s: seq<int>)
    | Ulonglong(ulonglong: int) | Ulonglongs(ulonglongs: seq<int>)
    | Longlong(longlong: int) | Longlongs(longlongs: seq<int>)
    | Float(float: real) | Floats(floats: seq<real>)
    | Double(double: real) | Doubles(doubles: seq<real>)
    | Str(str: string) | Strs(strs: seq<string>)

  /** The plain string an attribute is converted to. */
  datatype Wrapper = Wrapper(s: string)

  const WrongVariant: string := "nope"

  /** Succeeds exactly on the `Str` variant, keeping its text; every other variant fails with "nope". */
  function TryFrom(value: AttrValue): (r: Result<Wrapper, string>)
    ensures r.Ok? <==> value.Str?
    ensures r.Ok? ==> r.value.s == value.str
    ensures r.Err? ==> r.error == WrongVariant
  {
    if value.Str? then Ok(Wrapper(value.str)) else Err(WrongVariant)
  }

  /** The attribute a wrapped string is read from. */
  function Into(w: Wrapper): (v: AttrValue)
    ensures v.Str?
  {
    Str(w.s)
  }

  /** Converting the attribute of a string gives the string back. */
  lemma TryFromInto(w: Wrapper)
    ensures TryFrom(Into(w)) == Ok(w)
  {
  }

  /** A successful conversion determines the attribute it came from. */
  lemma IntoTryFrom(value: AttrValue)
    requires TryFrom(value).Ok?
    ensures Into(TryFrom(value).value) == value
  {
  }
}
