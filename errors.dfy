/** The Python exceptions the modelled code raises, each with what it carries. */
module Errors {
  datatype Exception =
    | KeyError(key: string)
    | AttributeError(attribute: string)
    | TypeError(message: string)
    | NotImplementedError(message: string)
    | ValidationError(message: string)
    | StopIteration
    /** `ValueError`, raised by Django when a file field has no file */
    | ValueError(message: string)
    | DoesNotExist(model: string)
    | ImportError(moduleName: string)
    /** `csv.Error`, raised by the sniffer when it cannot work a dialect out */
    | CsvError(message: string)
}
