/** The `Import` record of fastdeps/parser.py: one import statement as the
    extractor reports it. */
module Imports {
  import opened Wrappers

  /** `module` is declared optional, but the extractor gives `""`, not
      `None`, for `from . import x` (fastdeps/parser.py:70); `level` 0 is an
      absolute import; `is_from` tells `from X import Y` from `import X`. */
  datatype Import = Import(moduleName: Option<string>, names: seq<string>, level: nat, line: int, isFrom: bool)
}
