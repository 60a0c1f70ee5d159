/** A kernel uevent, the struct every part of the event processor passes around. */
module Uevents {
  datatype Uevent = Uevent(
    action: string,
    path: string,
    subsystem: string,
    driver: string,
    firmware: string,
    partitionName: string,
    partitionUuid: string,
    deviceName: string,
    modalias: string,
    partitionNum: int,
    major: int,
    minor: int,
    seqnum: int)
}
