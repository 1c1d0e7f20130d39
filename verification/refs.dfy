/**
 Nullable references and optional values. `Ref` stands for a C# reference
 field that may hold `null` (an unassigned asset, a cache not yet built, a
 buffer never allocated); `Option` is a computed value that may be absent.
 */
module Refs {

  datatype Ref<T> = Null | Ref(value: T)

  datatype Option<T> = None | Some(value: T)
}
