/** The errors the driver can report. The source reports them as untyped
    `anyhow` messages; here each message becomes one constructor. */
module Errors {

  datatype Error =
    /** "DpiStages: Need 1 <= # of DPI stages <= 256" */
    | InvalidStageCount
    /** "DpiStages: Need 1 <= active stage <= # of stages" */
    | InvalidActiveStage
    /** "Invalid size of byte response": a response that is not one whole report */
    | InvalidResponseSize
    /** "Invalid polling rate response": an unmapped polling-rate byte */
    | InvalidPollingRateResponse
    /** "Unsupported device": no profile for the product id */
    | UnsupportedDevice
    /** "Unimplemented": the profile does not provide the operation */
    | Unimplemented
    /** A polling rate of a kind the profile does not accept */
    | PollingRateKindMismatch
    /** The control transfer itself failed */
    | TransportFailure
}
