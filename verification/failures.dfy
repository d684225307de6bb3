/** The distinct outcomes f0r.py reports by raising, one constructor per cause. */
module Failures {
  import Abi

  datatype Error =
    | LoadFailed(path: string)              // `ct.CDLL` cannot open the shared object
    | MissingSymbol(symbol: Abi.Symbol)     // attribute lookup of a required entry point fails
    | NullName                              // `None.decode()` on a null `name` pointer
    | BadEnumCode(field: string, code: int) // the enum constructor rejects an integer field
    | InvalidDimensions                     // the assertion in `check_dimensions_ok`
    | NativeFailure                         // `f0r_construct` returned a null instance
    | MissingAttribute(attribute: string)   // an attribute lookup on an object lacking it
    | NoLibrary                             // a native call through a plugin whose `_lib` is None
    | ParamsNotPrimed                       // parameter access while `_params` is still None
    | UnknownParameter                      // IndexError / KeyError from the parameter table
    | TypeMismatch                          // a host value of the wrong shape for the parameter
    | NullString                            // a string parameter read back as a null pointer
    | NotImplemented                        // update / update2 absent from the library
    | MissingEnvironment(key: string)       // `os.environ[key]` raising KeyError
}
