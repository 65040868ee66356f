/** `ReflectUtilStatic` (src/common/utils/reflect/_reflect-util.ts). */
module ReflectUtil {
  import opened JsValues

  /**
   * `isType(obj, kind)`: `typeof obj === 'object' && !!obj && '$kind' in obj &&
   * obj.$kind === kind`. It holds exactly for an object whose `$kind` is the string
   * `kind`, so `null`, `undefined`, functions, strings, numbers and booleans are all
   * refused, and so is an object without a `$kind`.
   */
  function IsType(obj: JsValue, kind: string): (r: bool)
    ensures r <==> obj.Obj? && "$kind" in obj.fields && obj.fields["$kind"] == Str(kind)
  {
    && TypeOf(obj) == "object"
    && Truthy(obj)
    && HasProperty(obj, "$kind")
    && StrictEquals(Property(obj, "$kind"), Str(kind))
  }

}
